# Verified models of vweb

vweb is a Go web framework: static and dynamic handlers, a router, sessions, a
reflection library (`builtin`) and a server group driven by a configuration.
This project models its stateful and algorithmic core in Dafny and proves what
that core promises, for every input, every run or every interleaving.

| file | what it models |
|---|---|
| `PageCache.dfy`, `PageCacheInvariant.dfy`, `PageCacheTheorems.dfy`, `PageCacheOutcomes.dfy`, `PageCacheProgress.dfy` | the dynamic page cache: reference-counted templates shared by any number of requests, cleanups and a shutdown, as a step system with the handler's read-write lock, the per-page parse locks and every real close as a step of its own; the inductive invariant; the theorems; what each request ends with; freedom from deadlock, and that every run can be brought to its end |
| `ExitCalls.dfy`, `FreedFlag.dfy`, `Defer.dfy` | deferred calls: the interleavings of `Defer` and `Free` over one object pool, what a session's freed flag prevents, and the same operations on heap objects |
| `SetStruct.dfy`, `SetStructFields.dfy` | `Set` on structs: memory as cells, embedded pointers allocated on the way, and the two undo logs; which field a key means and what a call writes, read from the front of the path |
| `SetCollections.dfy` | `Set` on maps, slices and arrays |
| `Text.dfy` | the Go string functions that several models share |
| `TypeExpr.dfy` | the type-expression parser and the printer that inverts it |
| `Placeholder.dfy`, `Route.dfy` | the placeholder grammar and matcher; path matching and the route table |
| `Ranges.dfy` | byte ranges, from the header to the response body |
| `Sessions.dfy` | the session table with its sliding expiry and its sweeper |
| `Number.dfy` | integer arithmetic of any width |
| `Reconcile.dfy` | merging settings and driving the running servers to a configuration |

## How to read it

Concurrent code (the page cache and the deferred calls) is a step system: a
state, a list of events, `After(events)` for the state they lead to. An event
that is not enabled changes nothing, so every list of events is a run and the
theorems speak about all of them. Where the source writes to objects in place,
a class with the same fields has a method for each operation, and its `ensures`
equates the new state with a function of the old one; the lemmas are about
those functions. Clock readings, conversions, regular expressions and file
loading are parameters.

Four results say that the code does not do what a comment or a reader may expect:

* `builtin/builtin.go:979-982` promises that a failed `Set` leaves the struct exactly as it was. The
  allocation log is replayed after the leaf log, so this fails when an embedded pointer that was not nil is
  set to nil and allocated again by a later pair of the same call. `FailedSetMayForget` is that call,
  `FailedSetRestores` the exact condition, and `NeverNilRestores` a condition on the arguments alone: it is
  enough that none of them, the last one excepted, is converted to a value that holds a nil pointer.
  `InOrderAlwaysRestores` shows that one log in chronological order would need no condition.
* `builtin/builtin.go:149` promises a non-negative integer literal as array length. The overflow test is a sign
  test after each digit: `AccumulateMeans` says for every digit string what is read. A number of 2^63 or more is
  never read correctly (`AccumulateExact`); below 10 * 2^63 it is read as its low 64 bits when these are below
  2^63 and refused otherwise (`OverflowMissed`), from there to 10 * 2^64 it is always refused
  (`OverflowRefused`). `LengthMisread` shows the misreading in a type expression.
* A session's `freed` flag does not stop a `Defer` that read it before `Free` set it: `LateDefer`. When a Free is
  about to take what is pending, the session can still end with a call that nobody will run exactly when some
  Defer is past its check with a call that is not refused: `FreeLeavesCall`. With no such Defer and nothing
  pending it stays so: `SealedStays`.
* Storing a session again over its own expired entry stores nothing, although the entry is dead; after a sweep it
  would be stored. `SweepShown` is such a run; `SweepShows` says that a sweep decides whether a store stores
  anything in this case and in no other, and that for a positive expiry what is found afterwards differs in this
  case and in no other. `SweepCommutes` compares the whole tables.

## Model

| member | source | states |
|---|---|---|
| PageCache.RefCountedTemplater.Close | serverHandlerDynamic.go:63-78 | marks the wrapper destroyed once, gives up the cache's reference, and says whether the real close is due |
| PageCache.RefCountedTemplater.Acquire | serverHandlerDynamic.go:81-90 | adds a reference unless the wrapper is destroyed |
| PageCache.RefCountedTemplater.Release | serverHandlerDynamic.go:93-102 | gives up a reference; the real close is due when it was the last one and the wrapper is destroyed |
| PageCacheInvariant.InvAfter | serverHandlerDynamic.go:200-385 | locks, path locks, references, closing duties, cache entries and every request's hands stay consistent in every interleaving |
| PageCacheInvariant.InvStep | serverHandlerDynamic.go:297-359 | any single step of any request, cleanup or shutdown keeps that invariant |
| PageCacheTheorems.RefsCount | serverHandlerDynamic.go:55-102 | in every reachable state a wrapper's refs is one for the cache while it is not destroyed, plus one for each request that holds it |
| PageCacheTheorems.NeverClosedInUse | serverHandlerDynamic.go:63-102 | while a request holds a template nobody has closed it and nobody is about to |
| PageCacheTheorems.ClosedAtMostOnce | serverHandlerDynamic.go:63-102 | no template is closed twice in any interleaving |
| PageCacheTheorems.Conservation | serverHandlerDynamic.go:282-385 | after shutdown, once all requests have released, every template ever obtained has been closed exactly once: failed parses, replaced and cleaned-up entries and late parses included |
| PageCacheTheorems.Freshness | serverHandlerDynamic.go:256-359 | a request holds a template parsed for its own page under exactly the modification time it observed |
| PageCacheTheorems.AcquireSucceeds | serverHandlerDynamic.go:337-358 | the acquire whose result the code ignores, and that of a cache hit, always succeed |
| PageCacheTheorems.ClosedStaysEmpty | serverHandlerDynamic.go:520-538 | after Close the page map stays empty, the flag stays set and no step gives a request a wrapper |
| PageCacheTheorems.OneParser | serverHandlerDynamic.go:135-145 | without a cleanup of a page, at most one request at a time is inside parseTemplate for it |
| PageCacheTheorems.OneSuccessfulParse | serverHandlerDynamic.go:297-359 | requests for a page that all observe one modification time cause at most one successful parse |
| PageCacheOutcomes.RequestIsServed | serverHandlerDynamic.go:256-359 | a request that has seen a page under a modification time ends only after it has held a template parsed for just that page and time, unless the handler was closed or the environment refused it the file, the module or the parse |
| PageCacheOutcomes.EmptyHandsMeanClosed | serverHandlerDynamic.go:327-358 | after a successful parse a request leaves the store section without a template only if the handler is closed |
| PageCacheOutcomes.LookupServes | serverHandlerDynamic.go:256-265 | a lookup that starts with an entry for its page and time in the map is still under way or has acquired that very template, whatever the others do |
| PageCacheOutcomes.RequestLooks | serverHandlerDynamic.go:200-254 | an arriving request looks at its file unless the handler is closed |
| PageCacheOutcomes.RefusedEndsEmpty | serverHandlerDynamic.go:267-274 | a request that is refused the file, the module or the parse never holds a template |
| PageCacheOutcomes.FailedParseIsNeverServed | serverHandlerDynamic.go:374-382 | a template whose parse has failed is never held by any request |
| PageCacheOutcomes.GonePageIsForgotten | serverHandlerDynamic.go:233-295 | a request that finds its file gone ends only after the page has been out of the map |
| PageCacheOutcomes.LateRequestDoesNothing | serverHandlerDynamic.go:520-538 | a request that arrives after Close looks at nothing |
| PageCacheProgress.NoDeadlock | serverHandlerDynamic.go:200-385 | in every reachable state in which some request, cleanup or shutdown has not finished, one of them can take a step |
| PageCacheProgress.StepDescends | serverHandlerDynamic.go:200-385 | every step of every schedule takes its thread forward, by a rank that bounds the steps it still has, or leaves it where it is; the other threads stay where they are |
| PageCacheProgress.CanFinish | serverHandlerDynamic.go:200-385 | from every reachable state the threads can all run to their end, and a shutdown among them closes the handler |
| PageCacheProgress.EverythingIsClosed | serverHandlerDynamic.go:520-538 | any run with a shutdown in it can go on until every thread is through, and every template ever obtained has then been closed exactly once |
| ExitCalls.ExactlyOneOwner | defer.go:112-147 | in every interleaving each call object is owned by exactly one of the pool, a pending list, a Defer or a Free, and pooled objects are blank |
| ExitCalls.OwnerStep | defer.go:119-147 | every step hands an object from one owner to one other |
| ExitCalls.ContentStep | defer.go:119-147 | every step keeps pooled objects blank, pending ones filled and those of a Free holding the call that was taken |
| ExitCalls.RunsOnceInReverse | defer.go:133-147 | everything registered is, in order, in the batches taken so far or still pending; a batch is run by one Free, newest call first, each call once |
| ExitCalls.QuietMeansAllRun | defer.go:133-147 | with nothing pending and no Free running, every registered call has been run, each batch in reverse order |
| ExitCalls.ReverseAt | defer.go:139-140 | the order of a run is the registration order read backwards |
| FreedFlag.FreeLeavesCall | Session.go:49-61 | when a Free is about to take what is pending, some continuation ends with every thread idle and a call left behind if and only if some Defer is past its check with a call that is not refused |
| FreedFlag.SealedStays | Session.go:49-61 | a freed session with nothing pending and no such Defer never has a pending call again |
| FreedFlag.LateDefer | Session.go:49-61 | a run in which a Defer appends after the swap, so that its call is never run |
| Defer.CallPool.Get | defer.go:112-121 | a pooled or new object, blank, and no longer in the pool |
| Defer.ExitCall.Defer | defer.go:119-131 | appends the call, or gives the object back and changes nothing |
| Defer.ExitCall.Free | defer.go:133-147 | runs all pending calls in reverse order and returns every object blank to the pool |
| Defer.Session.Defer | Session.go:49-54 | refuses once the session is freed |
| Defer.Session.Free | Session.go:57-61 | sets the flag and runs what is pending in reverse order |
| SetStruct.StructSetter.SetStruct | builtin/builtin.go:1255-1361 | the loop over the pairs leaves the state and error of the specification, rollback included |
| SetStruct.StructSetter.SafeFieldByIndex | builtin/builtin.go:1736-1782 | walks a field path, allocating nil embedded pointers and logging each, and stops with the source's errors |
| SetStruct.StructSetter.RollBack | builtin/builtin.go:1263-1272 | replays the leaf log backwards, then the allocation log backwards |
| SetStruct.PairsRun | builtin/builtin.go:1274-1361 | the logs record every change of the call, overlapping and repeated keys included |
| SetStruct.RollbackAt | builtin/builtin.go:1263-1272 | after the rollback an old cell is as it was, or nil if the call allocated into it |
| SetStruct.FailedSetRestores | builtin/builtin.go:979-982 | a failed call restores every old cell if and only if each slot it allocated into was nil when it began |
| SetStruct.InOrderRestores | builtin/builtin.go:1263-1272 | one chronological log, replayed backwards, restores an old cell whatever was written |
| SetStruct.InOrderAlwaysRestores | builtin/builtin.go:979-982 | with one chronological log every call could be undone exactly, without condition |
| SetStruct.LeavingPointersAloneRestores | builtin/builtin.go:979-982 | a call that assigns over no pointer that was set restores everything when it fails |
| SetStruct.NeverNilRestores | builtin/builtin.go:979-982 | a failed call restores every old cell if no argument, the last one excepted, is converted to a value that holds a nil pointer; a failed call with one pair always does |
| SetStruct.PointersStay | builtin/builtin.go:1748-1769 | a set pointer that the call does not assign is neither changed nor allocated into |
| SetStruct.UntouchedCells | builtin/builtin.go:1255-1361 | a cell that is neither assigned nor allocated into keeps its value |
| SetStruct.SetThenRead | builtin/builtin.go:1274-1359 | after a successful pair the same key leads to the same field without allocating, and the field holds the converted value, unless the field lies on its own path |
| SetStructFields.LastPairWrites | builtin/builtin.go:1255-1361 | a successful call has done its pairs in order; the last stores the converted value in the field its key means, which may be written, and changes no other cell, nil pointers on its path excepted |
| SetStructFields.KeyMeans | builtin/builtin.go:1280-1327 | a name means itself or else its capitalised form, an index counts from either end, and the errors of the others |
| SetStructFields.WalkResolves | builtin/builtin.go:1736-1782 | a walk that succeeds ends at the field that the path means, read from its front, in the memory it leaves |
| SetStructFields.ResolvedWalks | builtin/builtin.go:1736-1782 | a path that means a field already is walked without allocating |
| SetStructFields.FieldLies | builtin/builtin.go:1777-1779 | the field lies in the root object at the path itself, or behind pointers in the object the last of them leads to at the rest of the path; the last step is the last index |
| SetStructFields.WalkAllocates | builtin/builtin.go:1744-1769 | only pointers on the path that are embedded, writable and nil are allocated |
| SetStructFields.WalkFailsFor | builtin/builtin.go:1744-1776 | a walk fails at a field it reached, for the reason its error names |
| SetStructFields.AllocateAdds | builtin/builtin.go:1756 | an allocation stores the pointer, adds an object with a zero cell for each part of the type, and changes nothing else |
| SetStructFields.PairError | builtin/builtin.go:1280-1359 | the error of a pair, in the order of the checks |
| SetStructFields.FailsAtFirst | builtin/builtin.go:1274-1361 | a call fails with the error of its first pair that fails; without pairs nothing happens |
| SetStruct.FailedSetMayForget | builtin/builtin.go:979-982 | a concrete failing call, with any unknown third key, that leaves an embedded pointer nil |
| SetCollections.MapSetter.SetMap | builtin/builtin.go:1078-1133 | either all pairs are stored in order or, on the first error, the map is as before |
| SetCollections.MapSetter.RollBack | builtin/builtin.go:1087-1091 | replays the recorded entries and absences backwards |
| SetCollections.LastPairDecides | builtin/builtin.go:1093-1131 | after success the last pair of a key decides whether it is present and with what value; other keys are untouched |
| SetCollections.FirstErrorMeans | builtin/builtin.go:1093-1131 | a call goes through if and only if every key converts and every value that is not nil does; otherwise the first pair that fails gives the error, its key before its value |
| SetCollections.Indexable.SetIndexable | builtin/builtin.go:1139-1249 | either all items are put, or contents and length are as before, for settable and unsettable slices and arrays |
| SetCollections.Indexable.SetItem | builtin/builtin.go:1176-1247 | one pair: the index rules relative to the original length, the growth, and the source's errors |
| SetCollections.Indexable.Grow | builtin/builtin.go:1193-1208 | growth keeps the items and fills with zero values |
| SetCollections.Indexable.RollBack | builtin/builtin.go:1154-1174 | restores the saved header and contents, or undoes item by item |
| SetCollections.LastItemDecides | builtin/builtin.go:1176-1247 | the last pair for a position decides; other positions keep their item or the zero value of a growth |
| SetCollections.PositionMeans | builtin/builtin.go:1176-1190 | an index means a position from the front, or from the end of the original contents if it is negative |
| SetCollections.ItemErrorMeans | builtin/builtin.go:1176-1230 | which pairs are put, and with which error each of the others ends |
| SetCollections.FirstItemFails | builtin/builtin.go:1176-1247 | a call fails with the error of the first pair that cannot be put after those before it |
| SetCollections.UndonePut | builtin/builtin.go:1232-1246 | undoing a put with the recorded item gives the contents before it |
| Text.JoinThenSplit | serverHandlerStatic.go:65 | joining pieces without the separator and splitting again gives them back |
| Text.ParseDecimal | serverHandlerStatic.go:85-108 | a printed decimal parses to the number if it fits in 64 bits and fails otherwise |
| Text.ParseSigned | serverHandlerStatic.go:85-108 | digits with an optional sign are read as the number they write, if it fits in 64 bits |
| Text.OnlyNumbersParse | serverHandlerStatic.go:85-108 | nothing else is read as a number |
| Text.TrimSpaceMeans | builtin/builtin.go:154-160 | exactly the white space at both ends is removed |
| TypeExpr.ParseNonNegInt | builtin/builtin.go:264-280 | the loop computes the accumulated value, or fails on a bad digit or a negative sum |
| TypeExpr.AccumulateExact | builtin/builtin.go:264-280 | a digit string is read as the number it writes if and only if that number is below 2^63 |
| TypeExpr.AccumulateMeans | builtin/builtin.go:264-280 | any digit string is read as its number modulo 2^64 if every prefix of it leaves less than 2^63, and refused otherwise |
| TypeExpr.OverflowMissed | builtin/builtin.go:274-277 | a number from 2^63 up to 10 * 2^63 is read as its low 64 bits when these are below 2^63 and refused otherwise |
| TypeExpr.OverflowRefused | builtin/builtin.go:274-277 | a number from 10 * 2^63 up to 10 * 2^64 is refused, whatever its low bits are |
| TypeExpr.ArrayLengthRead | builtin/builtin.go:178-197 | how any digit string in brackets before a type name parses: an array of the length just described, or the error of a bad length |
| TypeExpr.LengthMisread | builtin/builtin.go:178-197 | a written length that the overflow test misses gives an array type of another length |
| TypeExpr.LengthsAreDigits | builtin/builtin.go:264-280 | only digits are read as a length, and at least one |
| TypeExpr.FindKeyEnd | builtin/builtin.go:200-218 | the depth-counting loop finds the bracket that the specification finds |
| TypeExpr.KeyEndCloses | builtin/builtin.go:200-218 | the scan stops at k if and only if a bracket closes there and the text before it is balanced |
| TypeExpr.PrintThenParse | builtin/builtin.go:154-262 | parsing the printed form of a well-formed type gives the type back |
| TypeExpr.ParsedIsWellFormed | builtin/builtin.go:154-262 | whatever parses is well formed and has the brackets of the text, for any registry |
| TypeExpr.RoundTrip | builtin/builtin.go:154-262 | the round trip holds for a tree if and only if it is well formed |
| TypeExpr.ParsePrintParse | builtin/builtin.go:154-262 | the printed form of a parsed text parses to the same type |
| TypeExpr.PlainRoundTrip | builtin/builtin.go:144-153 | over bracket-free names a tree survives the round trip if and only if its lengths fit in an int and its map keys can be compared |
| TypeExpr.NameableMeans | builtin/builtin.go:154-262 | the names the parser takes for names: registered, without white space at the ends, not starting like a composite type |
| TypeExpr.ComparableMeans | builtin/builtin.go:219-232 | a map key is a pointer, a channel, a comparable name or an array of these; on others the parser panics |
| TypeExpr.BlanksAround | builtin/builtin.go:154-160 | white space around an expression does not matter |
| Placeholder.ParsePlaceholderSegment | route.go:335-382 | the loop accepts and rejects as the character-wise specification does |
| Placeholder.ParseThenRender | route.go:335-382 | an accepted segment gives alternating, non-empty, brace-free parts whose rendering is the segment |
| Placeholder.RenderThenParse | route.go:335-382 | every alternating list of such parts is what its rendering parses to |
| Placeholder.AcceptedSegments | route.go:335-382 | a segment is accepted if and only if it is the rendering of an alternating list |
| Placeholder.FindIsFirst | route.go:310 | the search finds the first occurrence of the next literal, or there is none |
| Placeholder.ExtractParams | route.go:288-330 | the scan over the user segment yields the captures and the map of the specification |
| Placeholder.ExtractIsLeftmost | route.go:288-330 | the matcher returns captures if and only if they are the leftmost decomposition of the whole segment |
| Placeholder.ExtractRebuilds | route.go:288-330 | the captures put into the pattern rebuild the segment |
| Placeholder.CompletePatterns | route.go:288-330 | the matcher finds a decomposition whenever one exists for exactly the patterns that end in a placeholder or have none |
| Placeholder.BindKeepsLast | route.go:322 | a name that occurs several times keeps its last capture, others keep what they had |
| Route.ParsePathParams | route.go:243-274 | the loop over the segments gives the merged parameters of the specification |
| Route.PathFits | route.go:243-274 | a path matches if and only if it has as many segments and each fits its pattern segment |
| Route.PathDelivers | route.go:243-274 | a match delivers exactly the placeholder names of the pattern, each with its leftmost capture in the last segment that has it |
| Route.StoredPartsAgree | route.go:261-267 | matching with the parts stored at registration equals parsing the pattern for each request |
| Route.Router.AddHandle | route.go:82-128 | stores the entry in the map, and in the list in place of the old one or at the end, or panics and stores nothing |
| Route.Router.RemoveHandle | route.go:69-80 | removes the entry from both, keeping the order of the others |
| Route.Router.Dispatch | route.go:164-223 | the literal lookup and the ordered scan return the specified entry, with the parameters its handler gets |
| Route.TableHoldsCurrent | route.go:69-128 | after any registrations, replacements and removals, map and list hold the same current entries, one per url, in order of first registration |
| Route.DispatchServes | route.go:164-223 | dispatch serves the literal route if there is one, else the oldest current pattern that fits, and nothing only if none fits |
| Route.ServedAnswers | route.go:82-223 | after any history a path is served if and only if some current url answers it, by its first, last and special characters and its segments, and then by one that does |
| Route.ServedDelivers | route.go:207-213 | a placeholder pattern that is served hands its handler the parameters of its match, and no other url hands over any |
| Route.KindMeans | route.go:90-100 | the kind of a url is decided by its first and last character and the special characters in it |
| Route.RegistrableMeans | route.go:90-112 | a placeholder pattern is refused if and only if a segment with a brace is no rendering of alternating parts |
| Route.LiteralNeverHits | route.go:216-222 | the branch for literal entries inside the list scan is never taken |
| Ranges.ClipPiece | serverHandlerStatic.go:66-114 | a piece yields a block exactly for the bytes of the file that it asks for; malformed pieces yield none |
| Ranges.Collect | serverHandlerStatic.go:65-115 | the collected blocks cover exactly the bytes asked for |
| Ranges.SortByStart | serverHandlerStatic.go:122 | an ordered permutation, nothing more |
| Ranges.Merge | serverHandlerStatic.go:124-138 | the merged blocks are strictly increasing, do not touch and cover the same bytes |
| Ranges.Ranges | serverHandlerStatic.go:53-144 | the blocks are the maximal runs of the bytes asked for, n is the number of those bytes and at most the size, and no 64-bit step overflows |
| Ranges.RunsHold | serverHandlerStatic.go:49-52 | the byte-by-byte reference has a block over a byte if and only if the byte is asked for |
| Ranges.NormalUnique | serverHandlerStatic.go:121-138 | blocks of that form are determined by the bytes they cover, so equal coverage gives equal blocks |
| Ranges.RunsTotal | serverHandlerStatic.go:140-142 | the lengths of the runs add up to the number of bytes |
| Ranges.OrderIrrelevant | serverHandlerStatic.go:65-122 | the order of the pieces and their repetition do not matter |
| Ranges.PrintThenRead | serverHandlerStatic.go:422-444 | blocks printed as first and last position and read as a header give the same blocks |
| Ranges.HeaderMeans | serverHandlerStatic.go:53-65 | a header asks for the bytes that any of its pieces asks for; without its unit it asks for nothing |
| Ranges.SuffixMeans | serverHandlerStatic.go:66-114 | `-n` asks for the last n bytes, if n is positive and fits in 64 bits |
| Ranges.FromMeans | serverHandlerStatic.go:66-114 | `a-` asks for everything from position a |
| Ranges.SpanMeans | serverHandlerStatic.go:66-114 | `a-b` asks for the positions from a to b, both included |
| Ranges.NoDashAsksNothing | serverHandlerStatic.go:66-114 | a piece without a dash asks for nothing |
| Ranges.BlanksAroundPiece | serverHandlerStatic.go:66-114 | white space around a piece does not matter |
| Ranges.RunsPick | serverHandlerStatic.go:417-456 | the slices of the runs hold each byte asked for once, in file order |
| Ranges.WriteParts | serverHandlerStatic.go:442-456 | each part of a multipart body is the slice that its Content-Range names |
| Ranges.Respond | serverHandlerStatic.go:300-456 | which of 200, 206 and 416 is sent, with which headers, and that the body is the file or exactly the bytes asked for; the branch for a total above the size is dead |
| Sessions.SessionTable.TriggerDeadSession | Sessions.go:78-92 | says whether the entry was already marked or is dead, marks it then, and frees its session if it was not marked before |
| Sessions.SessionTable.GetSession | Sessions.go:139-157 | finds a live entry and renews it, or drops and frees a dead one |
| Sessions.SessionTable.SetSession | Sessions.go:163-190 | stores the session and frees the one it replaces, unless that one has the same token |
| Sessions.SessionTable.NewSession | Sessions.go:127-132 | the stored session, or the new one after storing it |
| Sessions.SessionTable.DelSession | Sessions.go:194-199 | removes the entry and frees its session |
| Sessions.SessionTable.CheckDeadAll | Sessions.go:52-75 | removes exactly the dead entries and frees their sessions, in any order |
| Sessions.SessionTable.InstantDeadAll | Sessions.go:34-47 | frees every session in the table once and empties it |
| Sessions.LookupRenews | Sessions.go:139-157 | a session that was found stays findable for the expiry time from then on and no longer |
| Sessions.StoreLasts | Sessions.go:163-190 | a stored session carries the id as its token and is found for the expiry time from then on; nothing changes if the entry there already has its token |
| Sessions.NewLasts | Sessions.go:127-132 | what NewSession returns is found for the expiry time from then on, and no longer |
| Sessions.DeletedIsGone | Sessions.go:194-199 | in any run a deleted session is not found again under its id, and has been freed once more |
| Sessions.ClearedIsGone | Sessions.go:34-47 | in any run, after a clear nothing is found under any id and every session ever stored has been freed |
| Sessions.DeadIsDropped | Sessions.go:139-157 | a lookup that finds a dead entry drops it and frees its session |
| Sessions.SweepClears | Sessions.go:52-75 | a sweep leaves no dead entry, changes no answer from then on, and frees what it removes |
| Sessions.OthersStay | Sessions.go:127-199 | an operation on one id leaves the entry of every other id as it is; a token changes only if that very session is stored, and then to the id |
| Sessions.StoredIsFreedOrInTable | Sessions.go:34-199 | in any run, sessions stored equal sessions freed plus sessions in the table, counted with repetition |
| Sessions.FreedOnce | Sessions.go:34-199 | with fresh sessions each is freed at most once, and never while it is in the table |
| Sessions.SweepsInvisible | Sessions.go:52-75 | with a non-decreasing clock and fresh sessions, every answer equals that of the same run without any sweep |
| Sessions.SweepInserted | Sessions.go:52-75 | a sweep can be inserted anywhere in a run without changing an answer |
| Sessions.SweptOp | Sessions.go:127-199 | a table without some dead entries answers every operation alike and stays such a table |
| Sessions.SweepShows | Sessions.go:163-190 | a sweep decides whether a session is stored if and only if there is a dead entry under its id that has its token, and only then and for a positive expiry changes what is found; without the sweep the store changes nothing |
| Sessions.SweepCommutes | Sessions.go:52-75 | a store and a sweep can change places, for the whole state, if and only if the entry that is under the id after the store is not dead to the sweep |
| Sessions.SweepShown | Sessions.go:163-190 | a run in which a session is found after it was stored again only if a sweep came first |
| Number.ComputeIsNative | builtin/number.go:55-135 | for every width up to 64, either sign and every operator, computing on 64 bits and converting gives the native result and the native errors |
| Number.SymbolsMean | builtin/number.go:55-135 | each symbol computes its own operator: the exact sum, difference, product or left shift wrapped to the type, the quotient and remainder truncated toward zero, the right shift rounded down, with the errors for a zero divisor and a negative count |
| Number.BitsMean | builtin/number.go:78-85 | each bit of the result of and, or, exclusive or and and-not is that function of the two operand bits |
| Number.OthersUnsupported | builtin/number.go:55-135 | any other symbol is refused |
| Number.FitCongruent | builtin/number.go:94-95 | a conversion changes a number by a multiple of two to the width |
| Number.FitNarrow | builtin/number.go:94-95 | converting a wrapped 64-bit result down equals wrapping the exact result at the narrow width |
| Number.BitwiseNarrow | builtin/number.go:78-85 | the bit operators agree on the low bits |
| Number.BitOfBitwise | builtin/number.go:78-85 | each bit of the result is the operator applied to that bit of the operands |
| Number.ShiftLeftNarrow | builtin/number.go:86-87 | shifting on 64 bits and converting equals shifting at the narrow width, for any count |
| Number.ShiftPastWidth | builtin/number.go:86-89 | a shift by the width or more gives zero, or minus one for a negative right shift |
| Number.LeastByMinusOne | builtin/number.go:74-77 | the least value divided by minus one wraps to itself with remainder zero |
| Number.QuotientAndRemainder | builtin/number.go:74-77 | quotient and remainder rebuild the dividend; the remainder is smaller than the divisor and has the sign of the dividend |
| Reconcile.CipherSuitesAuto | server/config/Config.go:501-532 | fixes the version range and fills an empty list with the suitable suites |
| Reconcile.SuitableChosen | server/config/Config.go:519-531 | the chosen suites are those that are secure and support a version of the range |
| Reconcile.SuitableInOrder | server/config/Config.go:519-531 | the suites are chosen one by one, in the order of the list |
| Reconcile.SuitableOne | server/config/Config.go:519-531 | one suite is chosen if and only if it is secure and supports a version within the range |
| Reconcile.AutoRange | server/config/Config.go:505-531 | the version range is sound and keeps what was set where it can; a filled list stays, an empty one gets exactly the suitable suites |
| Reconcile.ConnLayers | server/config/Config.go:28-52 | layers of connection settings can be merged in any grouping, empty layers do not matter, and a layer merged last has the last word, so that an earlier merge of it is redundant |
| Reconcile.TlsLayers | server/config/Config.go:28-52 | the same for TLS settings |
| Reconcile.ServerLayers | server/config/Config.go:593-613 | the same for server settings, with TLS settings missing in any of the layers |
| Reconcile.PrivateConnWins | server/config/Config.go:28-52 | every private connection setting survives a merge, and a public layer that has them all comes out as it is |
| Reconcile.PrivateTlsWins | server/config/Config.go:28-52 | the same for TLS settings |
| Reconcile.PrivateServerWins | server/config/Config.go:593-613 | the same for server settings |
| Reconcile.ConnLeast | server/config/Config.go:28-52 | a merge sets nothing that neither layer sets, for connection settings |
| Reconcile.TlsLeast | server/config/Config.go:28-52 | the same for TLS settings |
| Reconcile.ServerLeast | server/config/Config.go:593-613 | the same for server settings |
| Reconcile.MergedMeans | server/Server.go:971-983 | disabled addresses stay as they were; enabled ones get the public settings of the name they give under their own, and an empty suite list is filled |
| Reconcile.ConnIdempotent | server/config/Config.go:573-590 | merging connection settings a second time changes nothing |
| Reconcile.ServerIdempotent | server/config/Config.go:593-619 | merging server settings, TLS and cipher suites included, a second time changes nothing |
| Reconcile.Group.ListenStart | server/Server.go:893-920 | configures the server registered for the address, or a new one, and registers and starts it; a server that is serving, or files that do not load, make it fail, after the fields that could be set have been set |
| Reconcile.Group.ListenStop | server/Server.go:925-945 | takes the address out of the table and stops its server, which serves no more |
| Reconcile.Group.StopRemoved | server/Server.go:985-993 | stops exactly the addresses that are not configured, in any order |
| Reconcile.Group.Settle | server/Server.go:995-1049 | one address: a server that already runs with both of its settings as configured is left alone, any other is stopped, and the address then runs with its settings if it is enabled and its files load |
| Reconcile.Group.UpdateConfigServers | server/Server.go:960-1050 | for any order of visits: registered addresses are the enabled ones whose files load or that run unchanged, every server runs with the merged settings of its address, unchanged ones keep their identity, all others are new, and no server outside the table serves if none did before |
| Reconcile.RunsAsConfigured | server/Server.go:1023-1049 | after reconciliation every registered server runs with the connection and server settings of its address, and one that did before is the same as before |
| Reconcile.MissingOnlyIfUnloadable | server/Server.go:995-1049 | an address is registered if and only if it is enabled and its files load or its server already ran as configured |
| Reconcile.ReapplyKeepsAll | server/Server.go:960-1050 | if every enabled address could start, applying the same configuration again keeps every server and starts and stops nothing |

## Left out

- HTTP, TLS, sockets, certificates, RPC and HTTP plugins, site management and file lookups: input and output.
- The content of a page between the stat and the read: a comment at `serverHandlerDynamic.go:268` speaks of reading the latest modification time after opening, the code keeps the earlier one; templates are identified by page and modification time only.
- `prepareDot`, template execution, buffers and panics inside modules or deferred calls.
- `reflect` and `unsafe`: `autoConvert`, `convertKey`, `toInt`, the field index and `makeSettable` are opaque partial functions or flags of a field; cyclic and zero-size types are not modelled.
- After a failed `Set` on a settable slice the header points to the saved copy; other slices that share the old array keep the partial writes, which the model of visible contents does not show.
- Size limits of `reflect.ArrayOf` and `reflect.ChanOf`, and registered names that stand for one and the same Go type: types are compared as trees of names.
- Regular expressions and `path.Match` are opaque predicates; `rewrite.go` and the site manager's checks before dispatch are left out.
- Route edits during a scan and concurrent calls on the session table: both are modelled with atomic operations.
- Session values, cookies, random identifiers, and implementations of `Sessioner` other than `Session`.
- ETag, conditional requests other than the verdict of If-Range, multipart boundaries, and a file that changes while it is sent.
- Floats, complex numbers, strings and the shorthand wrappers in `builtin/number.go`.
- The goroutine that serves a listener, which sets and clears a server's status, its own deregistration on exit, graceful shutdown, and registered values that are not servers.
- Settings are values: at `server/Server.go:907-917` the running server shares its TLS settings with the map of the caller, so a configuration that is changed in place compares equal to the running one and is not restarted.
- Go strings are byte strings; the models use sequences of characters, all separators being ASCII.
