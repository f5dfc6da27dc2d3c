# Verification model of the RustDesk API server

This Dafny 4.11 project models the parts of the RustDesk control-plane server that have state,
branching and arithmetic, and proves what they promise. `dafny verify dfyconfig.toml` checks it.

Each component has a *specification*: functions on immutable values, one per operation, with the
branches, limits and error cases of the code. Where the code changes things in place, a class with
the same fields and methods is proved to compute that specification (`Store`, `Registry`, `Row`,
`RateLimiter`, `Notifier`, `IpInfoService`, `Authentication.User`, `SignIns`, `Builds`,
`DeviceConnectionManager`). The results about whole runs, such as "at most once", "never again" and
"leaves no trace", are lemmas about the specification. A run is a sequence of committed requests
in any order; the halves of requests that release a lock or commit in between are separate steps.
What one request does is also stated without the specification's own helpers, from the request and the
state before it (`AddressBookFields`, `DeviceEffects`, `OidcAddresses`, `OidcRequestEffects`, `BuildOutcomes`,
and the lemmas whose names end in `Is`, `Iff`, `Leaves` or `Hole`).

| component | modules |
|---|---|
| address books: per-item protocol, whole-list push, legacy read | `TagColors`, `AddressBook`, `AddressBookRuns`, `AddressBookPush`, `AddressBookContent`, `AddressBookFields`, `AddressBookRoundTrip`, `AddressBookStore` |
| devices: approval, uuids, heartbeats | `Devices`, `DeviceRuns`, `DeviceEffects` |
| live connections and disconnect requests | `Connections` |
| rate limits, notification throttle, look-up cache, lockout | `SlidingWindow`, `RateLimit`, `Notifications`, `IpInfo`, `Authentication` |
| OpenID Connect: identities and sign-in requests | `OidcIdentities`, `OidcRuns`, `OidcAddresses`, `OidcRequests`, `OidcRequestRuns`, `OidcRequestEffects`, `OidcService` |
| client config string | `Base64`, `Json`, `ClientConfig` |
| installer: NSIS text, template, build slot and jobs | `Replacing`, `Nsis`, `SetupTemplate`, `SetupScript`, `BuildJobs`, `BuildRuns`, `BuildResults`, `BuildService`, `BuildOutcomes` |
| who sees a device: list, check, live updates | `Visibility`, `Broadcast` |
| shared | `Common`, `Text` |

## What turned out to have a condition

- A whole-list push equals the per-item run except when it repeats an id the book does not have:
  then the unique constraint fails and nothing is stored (`PushRefinesAnyIds`). New rows can get other
  row ids, because a deleted row's id may be handed out again (`NewIdsDiffer`). New, coloured or deleted tag
  names that clipping would change again are excluded: the two protocols store different names then
  (`OneTagPush`).
- An upload from another machine changes nothing about a device but its parked uuid, and no answer but
  that to the decision to reject a parked uuid (`NonInterference`). Where uuids are refused outright, it
  changes nothing at all (`DenyStrikesAll`); where they wait for a decision, all answers agree exactly
  when no parked uuid is rejected (`AnswersAlikeIff`, with a run in `RejectTellsApart`).
- Reading a book out and pushing it back is a fixed point exactly for books whose stored text is
  trimmed and within its limits and whose colours are proper (`ReadThenPush`).
- `normalize_color` leaves the range of opaque colours exactly for a signed hexadecimal number
  behind a `#` (`ColorRange`), although its comment promises an opaque colour for all input.
- The pruned notification table throttles a key exactly like one that never forgets, whatever other
  keys are in the run, if and only if that key is throttled by at most an hour (`PrunedTableExact`); the
  six-hour caller in `maintenance.py` lies outside. The cap is shared, so a message of such a key that
  gets through early can still cost another call its place in the minute (`MixedRunsDiffer`).
- "A free build slot means every job is finished" holds exactly while no job is left whose thread
  could not be started (`FreeSlotMeansFinished`, `OrphansFromFailedStarts`, `FailedStartLeavesQueued`).
- A done build has its file until a request to delete stored files removes it; the job goes on naming it
  (`DoneHasFile`, `DeletedAfterDone`). Deleting is refused while a build runs, but a deletion that found
  the slot free just before can take the file of the build that follows (`BusyKeepsFiles`, `DeletionRace`).
- A failed signing leaves no unsigned file when it fails with a signing error, or when another error
  comes after the signed copy was swapped in. Any other error before the swap leaves the unsigned file
  in the output folder, until it is deleted or cleaned up (`UnsignedOnlyFrom`, `SigningLeaves`, with a run
  in `SigningErrorLeavesFile`).
- The script template is filled by one simultaneous substitution when the paths and the signing
  command hold no token that is filled later. For paths without an `@` that is exact: with any of the five
  later tokens in the command it is not one (`TokenInCommand`).
- Settings within the field limit of 255 characters can still be refused by the installer, because
  its limit counts bytes of escaped JSON (`WideSettingsRefused`).
- The broadcast's recipient test agrees with the check on one device exactly when the device is
  approved, or has no owner and no active share (`AgreeIff`).

## Model

| member | source | states |
|---|---|---|
| TagColors.ColorRange | src/rustdesk_api/services/address_book.py:91-101 | the stored colour lies in 0x1000000..0xFFFFFFFF if and only if the input is not a negative hexadecimal number behind a `#` |
| TagColors.SignedHashExample | src/rustdesk_api/services/address_book.py:91-101 | a concrete text that is stored as a negative colour |
| TagColors.PlainHashIsProper | src/rustdesk_api/services/address_book.py:91-101 | `#` and six hex digits always give a proper colour |
| TagColors.NormalizeFixed | src/rustdesk_api/services/address_book.py:91-101 | a stored colour read back as a number is unchanged if and only if it is proper |
| TagColors.HashColorIs | src/rustdesk_api/services/address_book.py:91-101 | `#rrggbb` in either case, with any white space around it, is that colour, opaque |
| TagColors.PrefixedColorIs | src/rustdesk_api/services/address_book.py:91-101 | behind the `#` the six characters may be `0x` and four digits |
| TagColors.NumberColorIs | src/rustdesk_api/services/address_book.py:91-101 | a number counts modulo 2^32 and is made opaque if it has no alpha |
| TagColors.WrittenColorIs | src/rustdesk_api/services/address_book.py:91-101 | a decimal numeral as text, signed or not, is read as the number |
| TagColors.OtherColorIsDefault | src/rustdesk_api/services/address_book.py:91-101 | a text with any character that no numeral has, and null, is the default colour |
| TagColors.PlainTextIsDecimal | src/rustdesk_api/services/address_book.py:91-101 | without a `#`, a text with anything but decimal digits, underscores and signs is the default colour |
| Text.ClipFixed | src/rustdesk_api/services/address_book.py:82-88 | clipping leaves a text alone if and only if it is trimmed, not empty and within the limit |
| Text.ClipShortens | src/rustdesk_api/services/address_book.py:82-88 | clipping only shortens, and shortens whatever it changes |
| Text.ClipKeeps | src/rustdesk_api/services/address_book.py:82-88 | clipping keeps the text without the white space around it, cut to the width, or nothing if that is empty or no text was sent; and nothing else is that |
| Text.SpacesAre | src/rustdesk_api/services/address_book.py:82-88 | the white space that is stripped, character by character |
| AddressBookRuns.RunConsistent | src/rustdesk_api/services/address_book.py:297-365 | every run of tag, peer and push operations keeps one entry per id, one tag per name, every link on a live tag of the book, and all row ids below the counters |
| AddressBookRuns.RunProper | src/rustdesk_api/services/address_book.py:325-354 | colours stay proper in every run without a signed `#` text |
| AddressBookPush.PushRefinesItems | src/rustdesk_api/services/address_book.py:488-536 | as long as no row id is handed out twice: a whole-list push fails if and only if it repeats a new id, and else leaves exactly the book (fields, row ids, notes, tags, colours, links) of the per-item requests |
| AddressBookContent.PushRefinesAnyIds | src/rustdesk_api/services/address_book.py:488-536 | whatever row ids the database hands out: the push fails if and only if it repeats a new id, and else leaves the peers, fields, tags, colours and links of the per-item requests; both keep the row id of every row that stays |
| AddressBookContent.ContentFollows | src/rustdesk_api/services/address_book.py:297-536 | in every run of requests the content of a book (tags by name, peers by id) follows the requests alone, however row ids are handed out and reused |
| AddressBookContent.AttemptSame | src/rustdesk_api/services/address_book.py:297-536 | each request is answered, and changes the content, alike for books that differ only in row ids |
| AddressBookContent.RunStays | src/rustdesk_api/services/address_book.py:297-536 | in every run of requests that neither delete nor rename them, entries and tags stay under their row ids |
| AddressBookContent.SameContentSamePeer | src/rustdesk_api/services/address_book.py:488-536 | equal contents mean equal fields and tag names under each id |
| AddressBookContent.NewIdsDiffer | src/rustdesk_api/services/address_book.py:488-536 | a push and its per-item requests that give the new peer different row ids, so that equal ids cannot be had |
| AddressBookFields.AddPeerLeaves | src/rustdesk_api/services/address_book.py:417-461 | adding a peer succeeds if and only if an id of 1 to 64 characters is named; then each column sent holds the text sent, trimmed and cut to its width, or nothing (the hash in personal books only), the tags sent are its tags, what is not sent is as before, and nothing else changes but tags made in the default colour |
| AddressBookFields.UpdatePeerLeaves | src/rustdesk_api/services/address_book.py:464-472 | the same for an id on record; another is not found |
| AddressBookFields.DeletePeersLeaves | src/rustdesk_api/services/address_book.py:475-485 | exactly the named peers go |
| AddressBookFields.AddTagLeaves | src/rustdesk_api/services/address_book.py:325-332 | the named tag has the colour sent, and nothing else changes |
| AddressBookFields.SetTagColorLeaves | src/rustdesk_api/services/address_book.py:347-354 | the same for a tag that is there; another is not found |
| AddressBookFields.RenameTagLeaves | src/rustdesk_api/services/address_book.py:335-344 | the tag with its colour and links has the new name, which no other tag had; each refusal told from the names |
| AddressBookFields.DeleteTagsLeaves | src/rustdesk_api/services/address_book.py:357-365 | exactly the named tags go, and every link to them |
| AddressBookFields.PushLeaves | src/rustdesk_api/services/address_book.py:488-536 | a push that succeeds leaves exactly the peers it names, each with the five columns and the tags of the last entry for its id and its old note, and exactly the tags it mentions, in the colours it gives them or those they had |
| AddressBookPush.OneTagPush | src/rustdesk_api/services/address_book.py:82-107 | on an empty book the push of one tag name equals its per-item run if and only if the clipped name is stable, so the condition on names is needed |
| AddressBookPush.UnstableName | src/rustdesk_api/services/address_book.py:82-107 | a name of 99 letters, a space and a letter, for which the two differ |
| AddressBookPush.ScriptExists | src/rustdesk_api/services/address_book.py:488-536 | such a per-item run exists for every book and every push |
| AddressBookPush.RepeatBreaksUnique | src/rustdesk_api/services/address_book.py:511-525 | a push that repeats a new id meets the unique constraint, because new rows are not recorded in the snapshot |
| AddressBookPush.PushNormalForm | src/rustdesk_api/services/address_book.py:488-536 | the push is one upsert per peer after the bulk changes, with ids looked up afresh each time |
| AddressBookRoundTrip.PeerToClient | src/rustdesk_api/services/address_book.py:601-624 | a peer in wire form: unset columns as empty text, tags by name, the hash for personal books only |
| AddressBookRoundTrip.BuildEnvelope | src/rustdesk_api/api/address_book.py:68-88 | the legacy read lists every tag, colour and peer once |
| AddressBookRoundTrip.ReadThenPush | src/rustdesk_api/api/address_book.py:181-198 | pushing a book's own envelope back changes nothing if and only if its stored text is clean and its colours proper, for any order of tags and peers |
| AddressBookRoundTrip.CleanBookComesBack | src/rustdesk_api/services/address_book.py:488-536 | a clean book survives reading and pushing row by row, with row ids and untouched columns |
| AddressBookStore.MergeFields | src/rustdesk_api/services/address_book.py:417-435 | the field loop computes the update of all columns |
| AddressBookStore.CollectWanted | src/rustdesk_api/services/address_book.py:501-510 | the tag names a push mentions, in order of first mention |
| AddressBookStore.DeleteWhere | src/rustdesk_api/services/address_book.py:475-485 | deletes the doomed rows, keeps the others and counts them |
| AddressBookStore.Store.EnsureTags | src/rustdesk_api/services/address_book.py:297-311 | creates the missing tags with their colours, touches no other, and returns the row of every name |
| AddressBookStore.Store.AddTag | src/rustdesk_api/services/address_book.py:325-332 | the new table equals the specification's, or the error case leaves it alone |
| AddressBookStore.Store.RenameTag | src/rustdesk_api/services/address_book.py:335-344 | renames in place so that links follow; missing, invalid and taken names are refused |
| AddressBookStore.Store.SetTagColor | src/rustdesk_api/services/address_book.py:347-354 | recolours one tag or reports it missing |
| AddressBookStore.Store.DeleteTags | src/rustdesk_api/services/address_book.py:357-365 | deletes the named tags and every link to them |
| AddressBookStore.Store.ApplyFields | src/rustdesk_api/services/address_book.py:417-435 | sets the columns sent and links the tags sent, creating them |
| AddressBookStore.Store.AddPeer | src/rustdesk_api/services/address_book.py:450-461 | adds or updates by id; an unusable id changes nothing |
| AddressBookStore.Store.UpdatePeer | src/rustdesk_api/services/address_book.py:464-472 | updates an entry on record; another id changes nothing |
| AddressBookStore.Store.DeletePeers | src/rustdesk_api/services/address_book.py:475-485 | deletes the named peers and no others |
| AddressBookStore.Store.ReplaceEntries | src/rustdesk_api/services/address_book.py:488-536 | the in-place push with its snapshot of rows computes the specification, roll-back included |
| AddressBookStore.KnownOrSeen | src/rustdesk_api/services/address_book.py:511-525 | after a push every id was in the book before or is in the push |
| Connections.CleanIdsSpec | src/rustdesk_api/services/connections.py:30-36 | at most 64 ids, ascending, each reported and within 1..2^31-1; an id is left out only for 64 smaller ones |
| Connections.ChosenIsAsked | src/rustdesk_api/services/connections.py:65-79 | a request without ids picks all live connections, one with ids exactly those, and it is refused if and only if one of them is not live |
| Connections.StoreRoundTrip | src/rustdesk_api/models/device.py:25-34 | every list of ids survives the JSON column |
| Connections.Row.RecordHeartbeat | src/rustdesk_api/services/connections.py:43-62 | stores the report, and answers with and clears the queued ids it still contains |
| Connections.Row.RequestDisconnect | src/rustdesk_api/services/connections.py:65-79 | queues the requested live ids on top of those queued, or reports that there are none |
| Connections.ColumnsHold | src/rustdesk_api/services/connections.py:43-79 | in every run the columns hold the last live list and the outstanding requests, and only live ids are outstanding |
| Connections.LiveIsClean | src/rustdesk_api/services/connections.py:30-62 | in every run the live list is ascending, in range and at most 64 long |
| Connections.Delivery | src/rustdesk_api/services/connections.py:43-62 | a heartbeat is answered with exactly the ids requested since the previous recorded one that it still reports |
| Connections.DeliveredWasAsked | src/rustdesk_api/services/connections.py:43-79 | every id delivered was outstanding |
| Connections.AtMostOnce | src/rustdesk_api/services/connections.py:43-79 | between two deliveries of an id somebody asked for it again |
| Devices.MergeFacts | src/rustdesk_api/services/devices.py:157-179 | the loop over reported columns writes the reported values and keeps the rest |
| Devices.CountPending | src/rustdesk_api/services/devices.py:195-196 | the number of devices waiting for approval |
| Devices.Registry.RegisterOrUpdate | src/rustdesk_api/services/devices.py:85-186 | the new table for all branches: full, new, rejected, parked, updated; no other device changes |
| Devices.Registry.ParkUuid | src/rustdesk_api/services/devices.py:278-304 | remembers the reported uuid without adopting it |
| Devices.Registry.ApproveDevice | src/rustdesk_api/services/devices.py:227-244 | approves, or reports that nothing changed |
| Devices.Registry.RejectDevice | src/rustdesk_api/services/devices.py:247-269 | rejects, empties the connection columns and stops watching |
| Devices.Registry.AcceptPendingUuid | src/rustdesk_api/services/devices.py:307-316 | adopts the parked uuid and forgets it |
| Devices.Registry.RejectPendingUuid | src/rustdesk_api/services/devices.py:319-325 | forgets the parked uuid |
| Devices.Registry.TouchHeartbeat | src/rustdesk_api/services/devices.py:328-348 | refreshes a known device and nothing else |
| Devices.Registry.HandleHeartbeat | src/rustdesk_api/api/heartbeat.py:86-153 | the gates (unknown, other installation, not approved) and the answer of the heartbeat |
| Devices.Registry.HandleSysinfo | src/rustdesk_api/api/heartbeat.py:201-281 | the upload's trust and vouching, then registration; the caller is told nothing |
| DeviceEffects.RebindsIff | src/rustdesk_api/services/devices.py:132-144 | unless uuids may be rebound freely, an upload with another uuid changes the recorded one of a device that is not rejected if and only if an active session of its owner or an administrator, or a sign-in of one of them, comes with it |
| DeviceEffects.KnownUpload | src/rustdesk_api/services/devices.py:132-186 | what any upload makes of a device on record: nothing, a parked uuid, or every column reported, an owner if it had none, approval by an administrator |
| DeviceEffects.NewUpload | src/rustdesk_api/services/devices.py:117-131 | what is recorded of a new device, when it waits for approval, and when the waiting list is full |
| DeviceEffects.HeartbeatLeaves | src/rustdesk_api/api/heartbeat.py:86-153 | what a heartbeat changes and is told, for unknown, foreign, rejected, waiting and approved devices |
| DeviceEffects.DecisionLeaves | src/rustdesk_api/services/devices.py:227-325 | each decision changes the columns it is about and no other |
| DeviceEffects.DecisionAnswers | src/rustdesk_api/api/device_tools.py:270-334 | a decision reports a change if and only if it made one |
| DeviceEffects.DisconnectAnswers | src/rustdesk_api/api/devices.py:258-283 | a request to end connections is answered with all live ones or with those named, or refused if one of these is not live |
| DeviceRuns.NonInterference | src/rustdesk_api/services/devices.py:132-155 | unless the policy is "allow", striking every untrusted upload with another uuid and every heartbeat without the recorded one out of a run in which no parked uuid is accepted changes no device but its parked uuid, and no answer to anyone else but those to decisions to reject a parked uuid |
| DeviceRuns.DenyStrikesAll | src/rustdesk_api/services/devices.py:132-155 | under "deny" it changes nothing at all, parked uuids and all answers included |
| DeviceRuns.AnswersAlikeIff | src/rustdesk_api/api/device_tools.py:312-334 | with nothing parked at the start, all answers stay as they were if and only if no parked uuid is rejected in the run |
| DeviceRuns.RejectTellsApart | src/rustdesk_api/api/device_tools.py:312-334 | a run in which a foreign upload changes the answer to such a decision |
| DeviceRuns.AllowInterferes | src/rustdesk_api/services/devices.py:132-155 | under "allow" one such upload takes a device over, so the condition is needed |
| DeviceRuns.RunSound | src/rustdesk_api/services/devices.py:121-131 | in every run the waiting devices stay within the limit, and an unapproved device has no live connections or queued disconnects |
| DeviceRuns.NeverPendingAgain | src/rustdesk_api/services/devices.py:85-186 | a device on record that is not waiting never waits again |
| DeviceRuns.RejectedStays | src/rustdesk_api/services/devices.py:132-134 | uploads and heartbeats of a rejected device change nothing about it |
| DeviceRuns.OwnerStays | src/rustdesk_api/services/devices.py:145-148 | a set owner is replaced only by an explicit reassignment |
| DeviceRuns.ColumnsFollow | src/rustdesk_api/api/heartbeat.py:106-144 | the connection columns of a device follow its recorded heartbeats, requests and rejections, so the delivery results hold for it |
| DeviceRuns.HeartbeatDelivers | src/rustdesk_api/api/heartbeat.py:139-144 | after any run an approved device's own heartbeat is told to close exactly the outstanding requests it still reports, and any other heartbeat nothing |
| SlidingWindow.PruneLoop | src/rustdesk_api/security/rate_limit.py:27-30 | the popleft loop prunes exactly the calls outside the window |
| SlidingWindow.PruneCounts | src/rustdesk_api/security/rate_limit.py:24-33 | the pruned deque has as many calls as the full history has inside the window |
| SlidingWindow.Admission | src/rustdesk_api/security/rate_limit.py:24-33 | one admission decides by full history and keeps every n+1 admissions spread over more than a window |
| SlidingWindow.SpacedBound | src/rustdesk_api/security/rate_limit.py:24-33 | so no closed window anywhere holds more than n admissions |
| RateLimit.RateLimiter.Allow | src/rustdesk_api/security/rate_limit.py:24-33 | prunes the key's deque and records the call if it is allowed |
| RateLimit.RateLimiter.Reset | src/rustdesk_api/security/rate_limit.py:35-37 | forgets one key |
| RateLimit.DecidesByHistory | src/rustdesk_api/security/rate_limit.py:24-33 | allowed if and only if fewer than `max_attempts` earlier allowed calls of the key lie in the window |
| RateLimit.WindowBound | src/rustdesk_api/security/rate_limit.py:24-33 | no closed window between resets holds more than `max_attempts` allowed calls |
| RateLimit.KeysIndependent | src/rustdesk_api/security/rate_limit.py:24-37 | striking every other key's calls changes no answer |
| Notifications.Notifier.Admit | src/rustdesk_api/services/notifications.py:245-268 | throttle, cap and drop counter change as specified, and the return value is the number held back |
| Notifications.ForgetLoop | src/rustdesk_api/services/notifications.py:256-259 | the deletion loop drops exactly the entries over an hour old |
| Notifications.MinuteBound | src/rustdesk_api/services/notifications.py:260-267 | no closed minute admits more than the cap |
| Notifications.DropsConserved | src/rustdesk_api/services/notifications.py:260-268 | drops so far = the counts returned + the count still held |
| Notifications.AdmittedIff | src/rustdesk_api/services/notifications.py:245-268 | with a throttle of at most an hour, a call is throttled if and only if an earlier call of its key got through less than its seconds ago; and another is dropped if and only if the last minute already holds as many as the cap |
| Notifications.FewKeysExact | src/rustdesk_api/services/notifications.py:256-259 | in a run with at most 1000 keys none is ever forgotten and every decision is as with full knowledge, whatever the throttles |
| Notifications.ThrottleExactPerKey | src/rustdesk_api/services/notifications.py:251-260 | a key throttled by at most an hour is throttled like by a table that never forgets, in every run and whatever the other keys' throttles are |
| Notifications.RunsAgree | src/rustdesk_api/services/notifications.py:245-268 | when every call keeps to the hour, cap decisions and counts agree as well |
| Notifications.ForgetsTooEarly | src/rustdesk_api/services/notifications.py:256-259 | for any longer throttle, a run in which a key gets through early |
| Notifications.PrunedTableExact | src/rustdesk_api/services/notifications.py:251-260 | a key throttled by at most so many seconds is throttled exactly in all mixed runs if and only if that is at most 3600 s |
| Notifications.OutcomesExact | src/rustdesk_api/services/notifications.py:245-268 | whole outcomes agree on all uniformly throttled runs if and only if the throttle is at most 3600 s |
| Notifications.MixedRunsDiffer | src/rustdesk_api/services/notifications.py:256-267 | a run with a longer throttle in which the cap drops an unthrottled call that it would else admit |
| IpInfo.IpInfoService.BeginLookup | src/rustdesk_api/services/ip_info.py:202-218 | the first critical section and the limiter: local, disabled, cached, unavailable or fetch |
| IpInfo.IpInfoService.FinishLookup | src/rustdesk_api/services/ip_info.py:219-228 | the second critical section: store, refresh, evict down to the limit |
| IpInfo.EvictLoop | src/rustdesk_api/services/ip_info.py:226-227 | the eviction loop drops from the front down to the limit |
| IpInfo.LookupIs | src/rustdesk_api/services/ip_info.py:202-218 | after every run: local for private and multicast addresses, disabled, the unexpired cached entry, a fetch if fewer than the limit started in the last minute, else unavailable |
| IpInfo.LandStores | src/rustdesk_api/services/ip_info.py:219-228 | what comes back is cached last, with its life time from the start of the look-up, and no more is evicted than the limit asks for |
| IpInfo.AlwaysByUse | src/rustdesk_api/services/ip_info.py:202-228 | in every interleaving the cache is ordered by last use and within its limit |
| IpInfo.EvictsLeastRecent | src/rustdesk_api/services/ip_info.py:224-227 | what a write evicts was used before everything it keeps |
| IpInfo.AlwaysBacked | src/rustdesk_api/services/ip_info.py:219-228 | every cached entry stems from a fetch of that address, with its expiry |
| IpInfo.CachedIsRecent | src/rustdesk_api/services/ip_info.py:209-213 | a cached answer is what a fetch begun less than its life time ago returned |
| IpInfo.OnlyPublicFetched | src/rustdesk_api/services/ip_info.py:204-207 | private and multicast addresses are never fetched |
| IpInfo.LimiterFollows | src/rustdesk_api/services/ip_info.py:215-216 | the fetches are the limiter's allowed calls |
| IpInfo.FetchRate | src/rustdesk_api/services/ip_info.py:215-216 | no closed minute starts more than `max_per_minute` fetches, however look-ups interleave |
| Authentication.User.RegisterFailure | src/rustdesk_api/services/authentication.py:60-91 | counts a failure, locks at the threshold, restarts after a lock ran out |
| Authentication.User.RegisterSuccess | src/rustdesk_api/services/authentication.py:94-96 | clears count and lock |
| Authentication.User.Authenticate | src/rustdesk_api/services/authentication.py:146-184 | locked, wrong, disabled or signed in, in this order |
| Authentication.SignIn | src/rustdesk_api/services/authentication.py:146-184 | an unknown name is answered like a wrong password and touches no account |
| Authentication.AttemptIs | src/rustdesk_api/services/authentication.py:146-184 | the answer to a password and every change it makes, told from the account before |
| Authentication.SecondFactorIs | src/rustdesk_api/services/authentication.py:60-91 | a wrong second factor is counted and locks, but does not make a lock longer |
| Authentication.LocksIff | src/rustdesk_api/services/authentication.py:60-91 | wrong passwords in a row lock an account if and only if there is a threshold above zero that they reach with those counted before |
| Authentication.GuessBound | src/rustdesk_api/services/authentication.py:60-91 | in a run of length T at most threshold + T / lock time wrong passwords are answered as wrong, from any starting state |
| Authentication.GuessBoundAttained | src/rustdesk_api/services/authentication.py:60-91 | a run that reaches the bound, for every length |
| Authentication.LockedRefusesAll | src/rustdesk_api/services/authentication.py:146-184 | while locked, right and wrong passwords are answered alike and change nothing |
| OidcIdentities.FirstFree | src/rustdesk_api/services/oidc.py:355-358 | the search for a free name ends, its result is free whatever the case, and every candidate before it is taken |
| OidcIdentities.FreeUsername | src/rustdesk_api/services/oidc.py:344-358 | the loop returns that first free candidate |
| OidcIdentities.CandidatesDiffer | src/rustdesk_api/services/oidc.py:355-358 | no two candidates are the same name, so finitely many taken names cannot block all |
| OidcAddresses.SignInIff | src/rustdesk_api/services/oidc.py:239-314 | an account nobody has linked signs in if and only if it claims a verified address with an `@`, at most 255 long, of an admitted domain, and either it links by address to the one user who has it and has no identity of this provider, or nobody has it and users are made; and it signs in that user |
| OidcAddresses.LinkedSignIn | src/rustdesk_api/services/oidc.py:275-281 | a linked account signs in its user whatever it claims, and a verified address is noted |
| OidcAddresses.LinkIff | src/rustdesk_api/services/oidc.py:260-273 | a user attaches an account if and only if they are active and have it already, or nobody has it and they have none of this provider |
| OidcAddresses.NameChosen | src/rustdesk_api/services/oidc.py:344-354 | a good claimed name is taken as it is, else a good local part, and the name is always a good one |
| OidcAddresses.CreatedName | src/rustdesk_api/services/oidc.py:344-358 | the new user has that name, or it with the first number that makes it free, case aside |
| OidcRuns.RunConsistent | src/rustdesk_api/services/oidc.py:252-335 | in every run (issuer, subject) names one user, a user has one identity per issuer, names are unique, and an account made by a sign-in keeps a password or an identity |
| OidcRuns.RunGrows | src/rustdesk_api/services/oidc.py:252-335 | in every run no administrator is created or promoted and no user renamed |
| OidcRuns.StepAccount | src/rustdesk_api/services/oidc.py:252-335 | a step takes a provider account off its user if and only if that user unlinks it |
| OidcRuns.AccountStays | src/rustdesk_api/services/oidc.py:252-335 | in every run, whatever ids identities get, an account stays with its user until that user unlinks it |
| OidcRuns.SameAccountSameUser | src/rustdesk_api/services/oidc.py:252-288 | signing in again with a linked account reaches the same user after any run in which it is not unlinked |
| OidcRuns.UnlinkKeeps | src/rustdesk_api/services/oidc.py:423-433 | unlinking never takes the last way to sign in |
| OidcRuns.CreateKeeps | src/rustdesk_api/services/oidc.py:297-311 | a created user has a free name and a new identity and keeps the map proper |
| OidcRequests.RunSound | src/rustdesk_api/services/oidc.py:163-236 | in every interleaving of the halves of callbacks a claimed row stays exchanging until its own callback writes it, no row is exchanged twice, and done means an exchange signed that user in |
| OidcRequests.FinishKeeps | src/rustdesk_api/services/oidc.py:197-236 | writing the claimed row without looking at its status again is safe |
| OidcRequestEffects.BeginStores | src/rustdesk_api/services/oidc.py:101-134 | what is stored when a sign-in begins: it holds for ten minutes, with its ids cut to 64 and 128 characters; nothing if its state or handle is in use |
| OidcRequestEffects.CallbackClaims | src/rustdesk_api/services/oidc.py:163-197 | a callback claims its request if and only if that is pending, not expired, and of this browser unless it is a client's |
| OidcRequestEffects.FinishSettles | src/rustdesk_api/services/oidc.py:197-236 | the second half settles the claimed row if it is still there |
| OidcRequestEffects.PollIs | src/rustdesk_api/services/oidc.py:376-403 | what a poll is told and does, from the row: unknown, pending, or the result, which is gone with it |
| OidcRequestEffects.PurgeTakes | src/rustdesk_api/services/oidc.py:436-441 | exactly what expired more than a day ago goes |
| OidcRequestRuns.RunFollows | src/rustdesk_api/services/oidc.py:163-236 | a request moves only from pending to exchanging and from exchanging to done or failed, one status a step, changes nothing else but its user, and never comes back |
| OidcRequestRuns.EndsOverExchanging | src/rustdesk_api/services/oidc.py:196-236 | between pending and done or failed there is a moment at which the request is exchanging |
| OidcRequestRuns.WhoMoves | src/rustdesk_api/services/oidc.py:175-197 | a pending request moves if and only if its own browser's callback is presented, then to exchanging; an exchanging one if and only if that callback's second half comes, then to done or failed |
| OidcRequestRuns.OnceEach | src/rustdesk_api/services/oidc.py:376-403 | in every run each code is exchanged at most once, each result handed over at most once, to the id and uuid the request began with, with the user its own exchange signed in |
| OidcRequestRuns.OtherInstallLearnsNothing | src/rustdesk_api/services/oidc.py:385-388 | a poll with another id or uuid changes nothing and is answered like an unknown handle |
| OidcRequestRuns.CollectedByItsInstall | src/rustdesk_api/services/oidc.py:389-403 | the first poll of the right installation collects a finished request, and the next finds nothing |
| OidcRequestRuns.ForeignCallbacksDoNotCount | src/rustdesk_api/services/oidc.py:184-194 | striking every callback from another browser out of a run changes nothing |
| OidcRequestRuns.StillCompletable | src/rustdesk_api/services/oidc.py:184-236 | after any run without its own callback a pending request can still be completed by its browser |
| OidcRequestRuns.AnswerReachesClient | src/rustdesk_api/services/oidc.py:199-403 | after the provider's answer the next poll of the right installation hands over the user whom the token signs in if active, and a failure in every other case |
| OidcRequestRuns.DoneIff | src/rustdesk_api/services/oidc.py:199-335 | a request is done if and only if the token was valid and its account is linked afterwards to an active user, for a linking request to the user who asked; that user is the one the request carries |
| OidcService.SignIns.ResolveLinking | src/rustdesk_api/services/oidc.py:260-273 | attaching an account: user gone, taken, already linked, refreshed or added |
| OidcService.SignIns.ResolveUser | src/rustdesk_api/services/oidc.py:275-314 | by identity, by verified address, or by a new account, in this order and nothing else |
| OidcService.SignIns.CreateUser | src/rustdesk_api/services/oidc.py:297-311 | a new account under the first free name, no administrator |
| OidcService.SignIns.Unlink | src/rustdesk_api/services/oidc.py:423-433 | removes one of the user's own identities, finds nothing for another user's, and refuses the last way in |
| OidcService.SignIns.FindIdentity | src/rustdesk_api/services/oidc.py:256-258 | the identity of (issuer, subject), of which there is at most one |
| OidcService.SignIns.BeginRequest | src/rustdesk_api/services/oidc.py:101-134 | stores the request with hashed tokens and cut ids, or nothing when a unique constraint refuses it |
| OidcService.SignIns.ClaimRequest | src/rustdesk_api/services/oidc.py:163-197 | claims exactly a pending, unexpired request presented by its browser |
| OidcService.SignIns.Settle | src/rustdesk_api/services/oidc.py:199-236 | the accounts and the row after the provider's answer |
| OidcService.SignIns.FinishRequest | src/rustdesk_api/services/oidc.py:197-236 | writes the claimed row and logs the exchange; stores nothing if the row was purged in between |
| OidcService.SignIns.Collect | src/rustdesk_api/services/oidc.py:376-403 | unknown, pending, or the result, which is deleted as it is handed over |
| OidcService.SignIns.PurgeExpired | src/rustdesk_api/services/oidc.py:436-441 | deletes what expired more than a day ago and counts it |
| Base64.RoundTrip | src/rustdesk_api/services/client_config.py:43-52 | every byte string is read back by the lenient decoder (section 5 of RFC 4648) |
| Base64.EncodeShape | src/rustdesk_api/services/client_config.py:43-52 | without its filling an encoding of n bytes has (4n + 2) / 3 symbols of the URL-safe alphabet, and the decoder's refilling restores it |
| Json.ObjectRead | src/rustdesk_api/services/client_config.py:31-36 | an object of string members, escaped to ASCII with surrogate pairs, is read back for all names and values (section 7 of RFC 8259) |
| ClientConfig.ConfigRoundTrip | src/rustdesk_api/services/client_config.py:43-52 | decoding a config string gives the four settings for every input, with or without filling and with white space around it |
| ClientConfig.ConfigInjective | src/rustdesk_api/services/client_config.py:43-45 | different settings never share a config string |
| ClientConfig.AcceptedIff | src/rustdesk_api/services/installer.py:511-515 | the installer accepts a config string if and only if the JSON has at most 1536 bytes |
| ClientConfig.JsonLength | src/rustdesk_api/services/client_config.py:31-36 | the JSON has 40 bytes more than the escaped fields together |
| ClientConfig.OrdinarySettingsAccepted | src/rustdesk_api/services/installer.py:511-515 | fields of ordinary characters within the limit are always accepted |
| ClientConfig.WideSettingsRefused | src/rustdesk_api/services/installer.py:511-515 | an id server of 125 characters beyond the basic plane is refused |
| Nsis.EscapeIsEach | src/rustdesk_api/services/installer.py:385-390 | the three replace passes equal one map over the characters |
| Nsis.UnescapeEscape | src/rustdesk_api/services/installer.py:385-390 | reading the escapes back undoes them for every text |
| Nsis.EscapedQuotes | src/rustdesk_api/services/installer.py:385-390 | every quote in the output stands directly behind a dollar sign and a backslash |
| Nsis.ReadWhole | src/rustdesk_api/services/installer.py:385-390 | an escaped text between quotes of either kind is read as exactly that text and ends where it should |
| Nsis.EscapeOccurs | src/rustdesk_api/services/installer.py:385-390 | escaping brings no template token into a text |
| Replacing.ReplaceSplit | src/rustdesk_api/services/installer.py:537-539 | replacing works on two halves separately when no occurrence can reach over the seam |
| Replacing.FillTokens | src/rustdesk_api/services/installer.py:536-539 | the replacement loop computes the fold over the tokens |
| Replacing.SequentialFill | src/rustdesk_api/services/installer.py:536-539 | for all values, token-by-token filling puts into each hole its value with the later tokens filled in it, and changes nothing else |
| Replacing.SimultaneousFill | src/rustdesk_api/services/installer.py:536-539 | it is one simultaneous substitution when no value holds a later token |
| Replacing.OneDirtyHole | src/rustdesk_api/services/installer.py:536-539 | if only one value holds later tokens, it is one simultaneous substitution if and only if the later passes leave that value alone |
| Replacing.ReplaceFixed | src/rustdesk_api/services/installer.py:537-539 | a pass changes nothing if and only if its token does not occur or is replaced by itself |
| SetupTemplate.SetupIsTemplate | src/rustdesk_api/services/installer.py:399-449 | the service's template has the shape the filling theorems need |
| SetupScript.RenderNsi | src/rustdesk_api/services/installer.py:508-540 | refuses a bad config, release or password in this order, and else returns the filled template |
| SetupScript.RefusedIff | src/rustdesk_api/services/installer.py:508-518 | a configuration of over 1536 bytes, another architecture or version, a password over 512 characters or not plain ASCII are refused, in this order, and nothing else |
| SetupScript.ServerHole | src/rustdesk_api/services/installer.py:521-523 | the server's name, of host characters and cut to 80 |
| SetupScript.HostKeeps | src/rustdesk_api/services/installer.py:521 | every other character is left out of the name, wherever it stands, and nothing else |
| SetupScript.PlainHoles | src/rustdesk_api/services/installer.py:524-525 | version and architecture as they are |
| SetupScript.ConfigHole | src/rustdesk_api/services/installer.py:526 | a config string that decodes to the four settings |
| SetupScript.CommandHole | src/rustdesk_api/services/installer.py:520-527 | the signing command with its dollars doubled, or nothing |
| SetupScript.PathHoles | src/rustdesk_api/services/installer.py:528-530 | each path in its own hole, escaped so that it reads back |
| SetupScript.IconHole | src/rustdesk_api/services/installer.py:455-461 | the guarded icon lines with the path escaped, or nothing |
| SetupScript.ResetHole | src/rustdesk_api/services/installer.py:531 | lines if the settings are to be reset, else nothing |
| SetupScript.PasswordHole | src/rustdesk_api/services/installer.py:480-492 | the line that sets exactly this password, or nothing |
| SetupScript.RenderedIsSubstituted | src/rustdesk_api/services/installer.py:518-540 | for every password, and paths and signing command without a later token, the script is the template with each value in its own place |
| SetupScript.RenderedAlways | src/rustdesk_api/services/installer.py:518-540 | what the script is without any such condition |
| SetupScript.PasswordTokenInCommand | src/rustdesk_api/services/installer.py:518-540 | with paths free of later tokens and no other later token in the command, the script is that substitution if and only if the command does not hold the password's token |
| SetupScript.TokenInCommand | src/rustdesk_api/services/installer.py:518-540 | with paths that hold no `@`, and for every password, the script is that substitution if and only if the command holds none of the five tokens filled after it |
| Replacing.PassesShow | src/rustdesk_api/services/installer.py:537-539 | passes whose values have no `@` (the last may have a character that no token has) leave a text as it is if and only if it holds none of their tokens |
| SetupScript.PasswordReads | src/rustdesk_api/services/installer.py:480-492 | the reader of the password line gets exactly this password, and the string ends with the line |
| SetupScript.SetupIsGood | src/rustdesk_api/services/installer.py:399-449 | the service's template holds each of the ten tokens once |
| BuildRuns.ForgetsOldest | src/rustdesk_api/services/installer.py:631-643 | the jobs forgotten are the oldest: all past an hour and as many more as leave room for one, no others |
| BuildRuns.RunSound | src/rustdesk_api/services/installer.py:686-875 | the invariant of slot, table, files and worker over every run, deletions of stored files included |
| BuildResults.OneAtATime | src/rustdesk_api/services/installer.py:704-722 | at most one job is under way and the slot's holder has it, at most 20 jobs are kept, the slot has at most one holder and is given back as often as taken |
| BuildResults.FreeSlotMeansFinished | src/rustdesk_api/services/installer.py:686-783 | with the slot free all jobs are finished if and only if no job is left whose thread did not start |
| BuildResults.OrphansFromFailedStarts | src/rustdesk_api/services/installer.py:704-722 | such a job comes exactly from a request that fails between storing its job and starting its thread |
| BuildResults.FailedStartLeavesQueued | src/rustdesk_api/services/installer.py:718-722 | a run in which one is left behind a free slot |
| BuildResults.RunningIsKept | src/rustdesk_api/services/installer.py:631-643 | a running job is in the table at every moment, and while one runs none is forgotten |
| BuildResults.DoneMeansSigned | src/rustdesk_api/services/installer.py:763-773 | done means a file, with a certificate a signed one if it is still on disk, and it is not on disk if and only if it has been deleted since; failed signing means no file |
| BuildResults.DoneHasFile | src/rustdesk_api/services/installer.py:852-875 | in every run a done job has its file on disk if and only if no request to delete stored files has removed it after the job was done |
| BuildResults.DownloadedIsSigned | src/rustdesk_api/api/installer.py:332-342 | a build's file can be fetched if and only if the job is done and its file not deleted, and for a certificate job it is signed |
| BuildResults.DeletedAfterDone | src/rustdesk_api/services/installer.py:852-875 | a run that ends with a done job whose file is gone |
| BuildResults.BusyKeepsFiles | src/rustdesk_api/services/installer.py:852-875 | while the slot is taken no deletion begins, so none takes place if none was under way |
| BuildResults.DeletionRace | src/rustdesk_api/services/installer.py:852-875 | a run in which a deletion that found the slot free takes the file of the build that then runs, which fails |
| BuildResults.InsistedIsSigned | src/rustdesk_api/services/installer.py:650-683 | an accepted build that insists on the certificate, without a server command, is done in no run with anything but a file signed with it, which is there until it is deleted |
| BuildResults.SigningLeaves | src/rustdesk_api/services/signing.py:308-375 | once signing has begun, in every later run the file on disk is the signed one if and only if the swap has taken place |
| BuildResults.UnsignedOnlyFrom | src/rustdesk_api/services/installer.py:725-783 | in every run an unsigned file of a finished certificate job is on disk if and only if a failing build had written it, or signing ended before the swap in an error that is no signing error, and nothing has deleted or cleaned it up since |
| BuildResults.SigningErrorLeavesFile | src/rustdesk_api/services/signing.py:345-375 | runs from an empty table in which an error ends the signing at each of its steps: before the swap an unsigned file is left, after it a signed one |
| BuildResults.StatesInOrder | src/rustdesk_api/services/installer.py:725-783 | a job's state only moves on; done becomes failed only by a failing clean-up |
| BuildOutcomes.PlanIs | src/rustdesk_api/services/installer.py:650-683 | signed with the certificate if and only if not declined, no server command, and usable; refused with the reason if and only if insisted on without a command and not usable |
| BuildOutcomes.RequestGetsSlot | src/rustdesk_api/services/installer.py:703-705 | a request gets the slot if and only if it is free and the order is not refused |
| BuildOutcomes.StoredJob | src/rustdesk_api/services/installer.py:708-718 | what is stored of an accepted order |
| BuildOutcomes.RequestLeaves | src/rustdesk_api/services/installer.py:704-722 | an accepted request leaves the slot to its job's thread, or frees it and leaves the job behind if the thread does not start |
| BuildOutcomes.ForgottenIff | src/rustdesk_api/services/installer.py:631-643 | a job is forgotten if and only if it is over an hour old or 19 newer ones are there |
| BuildOutcomes.ForgottenFiles | src/rustdesk_api/services/installer.py:640-643 | the files of forgotten jobs go, and no others |
| BuildOutcomes.BuildComesTo | src/rustdesk_api/services/installer.py:725-783 | a build left to itself is done if and only if everything went well, signing included where asked for; its file, signature mark and message, and what is left on disk, for every way to fail |
| BuildService.Builds.ForgetOldJobs | src/rustdesk_api/services/installer.py:631-643 | selecting from the sorted table and dropping in loops forgets what the specification says, files included |
| BuildService.Builds.StartBuild | src/rustdesk_api/services/installer.py:686-722 | refused, busy, started, or failed to start with the slot given back |
| BuildService.Builds.RunJob | src/rustdesk_api/services/installer.py:725-783 | for every outcome of download, build, each step of signing, and clean-up the job ends finished and the slot is given back once |
| BuildService.Builds.DeleteFiles | src/rustdesk_api/services/installer.py:852-875 | refused while a build runs or without such a file, and else deletes the named file or all of them, up to the first that cannot be |
| BuildService.DeleteScriptDeletes | src/rustdesk_api/services/installer.py:852-875 | such a request that finds the slot free deletes what it names and nothing else |
| Visibility.SelectedIs | src/rustdesk_api/services/devices.py:385-458 | the list is in strict order, nulls last and ties by id, and holds exactly the devices that match scope, status, and group, tag and search filters |
| Visibility.PagesAreList | src/rustdesk_api/services/devices.py:447-458 | for any page size the pages together are that list, each device once, and its length is the total |
| Visibility.ListIsCheck | src/rustdesk_api/security/permissions.py:71-95 | for a non-administrator the pages of the default list show exactly the unarchived devices that `can_view_device` allows |
| Visibility.NarrowedList | src/rustdesk_api/services/devices.py:399-445 | filters narrow the list, a search also finds archived devices, and nothing shows that the user may not view |
| Visibility.AdminList | src/rustdesk_api/services/devices.py:409-430 | an administrator's default list is the approved unarchived devices, though the check allows all |
| Visibility.ListShows | src/rustdesk_api/services/devices.py:385-458 | what each list shows, narrowed by any test and searched or not: the devices of that approval among the user's own and shared ones (an administrator's of one owner or all), archived only where asked for or searched, online if last seen within the timeout and offline otherwise |
| Visibility.OnlineOrOffline | src/rustdesk_api/services/devices.py:418-437 | online is the default list with those seen within the timeout, offline the rest of it, and the archived list shares nothing with it |
| Visibility.WaitingLists | src/rustdesk_api/api/devices.py:118-128 | the lists of waiting and rejected devices are refused to everyone but administrators, and no page shows a user another's device |
| Visibility.ListOrder | src/rustdesk_api/services/devices.py:447-457 | values fall or rise as asked, devices without one come last, and equal ones stand by number |
| Visibility.PageHolds | src/rustdesk_api/services/devices.py:444-458 | each page holds the devices at its places in the list, and the total is its length |
| Visibility.PagesClamped | src/rustdesk_api/services/devices.py:444-446 | page numbers below 1 and sizes outside 1 to 200 count as the nearest within |
| Visibility.PermissionIsShare | src/rustdesk_api/security/permissions.py:71-79 | the loop over shares finds one if and only if the query's sub-select does |
| Broadcast.DeviceConnectionManager.Connect | src/rustdesk_api/ws.py:36-38 | a new connection comes last |
| Broadcast.DeviceConnectionManager.Disconnect | src/rustdesk_api/ws.py:40-41 | no connection over the socket is left, and all others stay in their order |
| Broadcast.DeviceConnectionManager.NotifyDeviceChange | src/rustdesk_api/ws.py:43-62 | sends to every recipient that can be reached, in order, and drops exactly the connections over failing sockets |
| Broadcast.RecipientIsCheck | src/rustdesk_api/ws.py:53-56 | for an approved device the recipient test is `can_view_device` |
| Broadcast.AgreeIff | src/rustdesk_api/ws.py:53-73 | the two tests agree for everyone if and only if the device is approved, or has no owner and no active share |
| Broadcast.ToldWhoMayView | src/rustdesk_api/ws.py:43-62 | an update of an approved device reaches exactly the working connections of those who may view it |

## Left out

- The JSON layer of the address-book envelope: it is taken to hand over what was put in. The order of tags and peers in it is arbitrary, and the results hold for every order.
- Passwords of shared books, their encryption and rotation; sharing and access rules between books. Every operation is about one book.
- AddressBookRoundTrip.PeerToClient: leaves out the decrypted password of a shared book.
- AddressBookRoundTrip.BuildEnvelope: does not state the sorted order of the tags, the update stamp or the JSON text.
- Devices.Registry.RegisterOrUpdate: leaves out the update stamp and the event, audit and notification rows.
- Devices.Registry.RejectDevice: leaves out the time of the last offline notice, which it clears.
- Devices.Registry.HandleHeartbeat: leaves out the strategy fragment of the response.
- Devices.Registry.HandleSysinfo: leaves out the presets of a new device.
- BuildService.Builds.StartBuild: starts where availability, release, asset and password have been checked.
- AddressBookPush.PushRefinesItems: supposes that no row id is handed out twice, which `AddressBookContent.PushRefinesAnyIds` does without.
- AddressBookContent.PushRefinesAnyIds: is stated for new, coloured and deleted tag names that clipping to the limit leaves alone, because the per-item run clips these once more than the push does; `OneTagPush` says that it fails without.
- Unicode digits and numerals of more than 4300 digits in `int()`, in colours.
- OidcRequestRuns.RunFollows: a sign-in request is known by its row id, which is never reused in the model, whereas SQLite may hand out the largest id again after its deletion.
- Gaps in the row ids of one address-book request; from one request to the next they may be any ids above those in use.
- Update stamps, audit rows, device events, notification delivery and log text.
- Presets, enrolment and strategies in heartbeats and uploads.
- Case folding beyond ASCII in user names, e-mail addresses and domains.
- Stored id lists that were not written by the server itself.
- Requests without a device id, which are answered with an error.
- The clock is read before the lock in the rate limiter and the notification throttle; a call is one step at one time, and times do not decrease.
- Token hashing, the provider exchange, makensis, downloads and signing are arbitrary functions or outcomes. Results about hashes hold for every hash function.
- Two callbacks of one sign-in request that read it before either commits: the claim is one step.
- Deleting users, which takes their identities and requests with them.
- JSON other than objects of strings, non-ASCII bytes and lone surrogates in the config decoder.
- SetupScript.RenderNsi: takes the template as an argument; `SetupIsGood` says that the service's own is one the theorems are about.
- Nsis.ReadWhole: reads the three escapes the service writes, not the further escapes NSIS has.
- The age of files in the clean-up of the output folder: any file that no job points to may go.
- A file that cannot be deleted while old jobs are forgotten; taking a file's size and marking the job done are one step.
- Stored MSI files, which are deleted in the same way as installers but belong to no job.
- The order of names under SQL collation: the sort column of a list is any function to numbers or nothing. The group, tag and text filters are one arbitrary test on a device.
- Connections opened or closed while an update is being sent.
- HTTP routing, cookies, sessions, migrations, retention, backups, metrics, roles, the WebUI and other straight-line code.
