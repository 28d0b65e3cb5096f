# Verified models of the gateway's stateful cores

The gateway in front of the LLM providers is mostly plumbing, but it holds a dozen algorithms whose
correctness is a statement about whole runs: two sliding-window rate limiters, the reconciliation of
a channel's models with its upstream, the polling protocol that refunds failed Midjourney tasks, the
management of multi-key channels, the comparison of price tables, the replayable request bodies and
their accounting, an Ogg scanner, the bounded capture of requests for review, the configuration of
the review service, and the saturating quota conversions. This project models each of them and proves
what it is there to do.

Each component has a few modules. Where the source updates things in place, a class or a method
with a loop does the same, and its contract ties it to a specification function; the theorems are
about that function, over every input, every run or every reachable state.

| module | component |
|---|---|
| `RequestWindow`, `ReservationWindow`, `RateLimiter` | the in-memory rate limiter |
| `ModelNames`, `UpstreamSync`, `UpstreamLimits`, `UpstreamRouting`, `KeysetScan` | upstream model reconciliation |
| `Midjourney`, `MidjourneySafety`, `MidjourneyDelivery` | polling and refunds |
| `MultiKey`, `KeyHistory`, `KeyListing` | multi-key channels |
| `PriceDiff`, `PriceDiffBuild`, `ModelsDev`, `CheapestOffer` | price comparison and selection |
| `BodyStorage`, `BodyCursor`, `StorageObjects`, `StorageAccounting` | replayable bodies and usage counters |
| `OggScan` | the Opus duration scanner |
| `ReviewCapture`, `ReviewEvidence`, `Utf8Truncate` | bounded request evidence |
| `ReviewConfig`, `ReviewProbes`, `ReviewUpdates`, `ReviewReadiness` | the review service's configuration |
| `QuotaMath` | quota conversions |
| `Text`, `Ordering` | strings, lists and sorted keys used by the others |

`dafny verify dfyconfig.toml` checks everything.

## What the proofs found

Several promises hold only under a condition. Each has a lemma that states the condition exactly.

- The request limiter keeps its limit on every run if and only if the window is at most one second
  longer than the sweep's expiration (`RequestWindow.LimitHoldsIff`). The sweep compares whole seconds
  with the nanosecond stamps of reservations, so on no run with a 64-bit clock does it drop a
  reservation queue (`ReservationWindow.SweepSparesReservations`).
- For a given regular-expression engine, applying a selection keeps the staged lists equal to a fresh
  detection, whatever is stored and selected, if and only if no upstream name holds a comma and each
  name, stored as an ignore entry, matches itself and no other upstream name
  (`UpstreamLimits.StaysCurrentIff`). Plain names always do. A name that begins with `regex:` is
  stored as a pattern: alone it is carried if the pattern matches it (`UpstreamLimits.LonePattern`),
  but ignoring it may hide another name (`UpstreamLimits.PatternHidesAnother`).
- The abilities table, which routes requests, is rebuilt after the row is written, in a transaction of
  its own. From a state where it lists the stored models, a call leaves it so if and only if the row is
  not written, the table is rebuilt or the stored models are the same (`UpstreamRouting.StaysInStepIff`).
  A rebuild that fails after an automatic addition is never made up for: however often the same upstream
  is checked again, the added models stay stored and unrouted (`UpstreamRouting.LostRebuildLasts`).
- For every bound on how often a pass handles a Midjourney task, and every set of items upstream may
  send, the task is refunded at most once and never leaves FAILURE if and only if no item is handled,
  or at most one a pass and all of them faithful, or all say the same timeout (`MidjourneySafety.SafeIff`).
  Faithful means that a failure carries a reason or full progress, and a reason below full progress
  comes with a failure; with one handling per pass this is exactly the condition
  (`MidjourneySafety.OncePerPassSafeIff`). The code checks none of it.
- Deleting the disabled keys in bulk leaves the stored keys and statuses of deleting them one by one
  if and only if the list is empty or some key survives (`MultiKey.DeleteBothWays`). When every key is
  disabled the emptied key string is not written, the stored keys stay, and all of them come back
  enabled, though the call reports success.
- The key preview cuts after ten bytes, so it is valid text if and only if the key is short or its
  tenth byte ends a character (`KeyListing.PreviewIsTextIff`).
- The price comparison marks equality with the text "same" and keeps one entry per channel name. It
  reports what it should if and only if hidden prices do no harm: wherever a channel differs by this
  text, or behind a later channel of its name, the name is noticed for another price, and at that price
  some channel differs visibly, or there is a local price that a noticed channel lacks
  (`PriceDiff.ReportIsDiffIff`, `PriceDiff.MarkerTextHides`, `PriceDiff.LaterNameHides`).
- The comment in the source says the cheapest models.dev offer is chosen. Over the sorted providers the
  code chooses one less than 1e-9 above the cheapest (`ModelsDev.ChooseNearlyCheapest`). The cheapest is
  chosen under every naming of the providers if and only if no positive cost lies strictly between the
  least one and that plus 1e-9 (`CheapestOffer.AlwaysCheapestIff`); for all other costs there is a
  catalogue whose selection is not the cheapest offer (`CheapestOffer.MissedInCatalogue`).
- The two body storages answer a read alike if and only if they are closed, it asks for a byte or one is
  left (`StorageObjects.CompareReads`). Over any run they stay the same object, and they answer alike if
  and only if no call asks for nothing at the end (`StorageObjects.RunBoth`).
- An operation fits the disk budget after every plain run if and only if it is not a streamed creation
  whose body is longer than declared (`StorageAccounting.KeepsBudgetIff`); for each one that is, two
  operations overrun the budget.
- Among junk before, between and after the pages the Ogg scanner finds exactly the pages if and only if
  no capture pattern begins in the junk (`OggScan.ResyncIff`).
- Cutting valid text gives valid text unless the suffix does not fit and the limit splits a character
  (`Utf8Truncate.TruncatedValidIff`).
- A tested flag of the review service always speaks of the last passing probe if and only if candidate
  saves do not fail and the last save of a test does not fail where options are reloaded afterwards
  (`ReviewConfig.CertifiedIff`). That some passing probe used the current configuration needs the
  second condition only (`ReviewConfig.BackedIff`).
- Switching the review service on needs a passed test, but a service that is on may be untested: a test,
  switching on and a new address lead there from the start (`ReviewReadiness.EnabledUntestedRun`). Over
  every run it stays ready if and only if each event is harmless where it comes: an update that fails, is
  refused, keeps what was tested or switches off; a test that is not carried out or passes; clearing the
  key while off or in vain; reloading a stored copy that is ready (`ReviewReadiness.ReadyThroughoutIff`).
- The strict quota conversions reject the two ends of the range although both can be stored
  (`QuotaMath.EndsAreRejected`).

## Model

| member | source | states |
|---|---|---|
| RequestWindow.StepKeepsInv | common/rate-limit.go:28-42 | every call and every sweep keeps, for each key, a queue that is the recent part of the admission log and a log whose admissions M apart are at least D apart |
| RequestWindow.SpacedBoundsHits | common/rate-limit.go:127-152 | a log whose entries M apart are D apart has at most M entries in any window of length D |
| RequestWindow.WindowNeverOverfull | common/rate-limit.go:127-152 | over every run of calls and sweeps with a non-decreasing clock, no window of one duration holds more admissions of a key than its limit |
| RequestWindow.FreeIsAdmitted | common/rate-limit.go:127-152 | over every run, whatever the expiration and the clocks, a call is admitted when fewer than M calls of the key were, or the one M back is D old |
| RequestWindow.AdmittedIff | common/rate-limit.go:127-152 | over every run whose windows the sweep does not cut short, a call is admitted exactly then |
| RequestWindow.EarlySweepOverfills | common/rate-limit.go:28-42 | when the window is longer than the expiration plus one second, a run exists that admits limit + 1 calls in one window |
| RequestWindow.LimitHoldsIff | common/rate-limit.go:28-42 | the limit holds on every run exactly when duration <= expiration + 1 |
| ReservationWindow.PruneKeepsNewer | common/rate-limit.go:103-109 | pruning a sorted queue leaves exactly the entries newer than the cutoff, in order |
| ReservationWindow.PruneTracksGrants | common/rate-limit.go:96-109 | pruning the live grants at one cutoff gives the live grants at a later one |
| ReservationWindow.WithoutTracksRelease | common/rate-limit.go:68-74 | taking one stamp out of the queue is the queue of the grants with that grant released |
| ReservationWindow.GrantKeepsBound | common/rate-limit.go:111-117 | a grant given with fewer than M live ones leaves no interval of one duration with more than M unreleased grants |
| ReservationWindow.ReserveKeepsInv | common/rate-limit.go:89-118 | an attempt keeps the queue equal to the live grants, within the limit, and the grants bounded |
| ReservationWindow.ReleaseKeepsInv | common/rate-limit.go:52-79 | a release keeps the same invariant |
| ReservationWindow.StepKeepsInv | common/rate-limit.go:28-118 | every attempt, release and background sweep keeps that invariant |
| ReservationWindow.SweepSparesReservations | common/rate-limit.go:28-42 | on every run with a 64-bit clock a sweep leaves the reservation queue as it is, because it compares seconds with nanoseconds |
| ReservationWindow.QueueIsLiveGrants | common/rate-limit.go:89-118 | after every run, sweeps included, the queue is sorted, holds at most M entries and equals the unreleased grants newer than the last cutoff |
| ReservationWindow.GrantedIff | common/rate-limit.go:89-118 | over every run an attempt is granted exactly when fewer than M unreleased grants were made within one duration before it; the reply counts them and gives the window only with a refusal |
| ReservationWindow.ReleaseIdempotent | common/rate-limit.go:52-79 | releasing twice is releasing once |
| ReservationWindow.ReleaseExpired | common/rate-limit.go:52-79 | releasing a grant that has expired leaves the queue as it is |
| ReservationWindow.ReleaseFreesSlot | common/rate-limit.go:52-79 | after a live grant is released the next attempt is allowed |
| ReservationWindow.WindowEndIsCeiling | common/rate-limit.go:111-114 | the reported window end is the least whole second at or after the oldest grant's expiry |
| ReservationWindow.RejectionStands | common/rate-limit.go:97-115 | after a rejection, absent releases, attempts and sweeps before the oldest grant's exact expiry change no grant and are rejected too, on every run |
| ReservationWindow.BoundaryReopens | common/rate-limit.go:97-115 | a rejection reports limit + 1, the whole second of the oldest grant and the ceiling of its expiry, after which that grant no longer counts |
| RateLimiter.Limiter.Request | common/rate-limit.go:127-152 | the object admits and rewrites its queue as the modelled step does; a limit below one acts as one |
| RateLimiter.Limiter.Sweep | common/rate-limit.go:28-42 | the sweep drops exactly the stale and empty queues |
| RateLimiter.Limiter.ReserveWithWindow | common/rate-limit.go:89-118 | reply, queue and reservation are those of the modelled attempt, a disabled limit included |
| RateLimiter.Limiter.Delete | common/rate-limit.go:120-124 | removes that key only |
| RateLimiter.TakeOut | common/rate-limit.go:68-74 | the search loop and the splice take out the first equal stamp |
| RateLimiter.Reservation.Release | common/rate-limit.go:52-79 | first release takes the own stamp out and drops an emptied key; later ones change nothing |
| RateLimiter.Replay | common/rate-limit.go:127-152 | any run of calls and sweeps on the object leaves the queues of the modelled run |
| RateLimiter.ReplayReservations | common/rate-limit.go:28-118 | any run of attempts, releases and sweeps on the objects leaves the queue, stamps and released flags of the modelled run |
| ModelNames.NormalizeMembers | controller/channel_upstream_update.go:100-105 | the normalized names are the non-empty trimmed ones |
| ModelNames.NormalizeClean | controller/channel_upstream_update.go:100-105 | normalizing gives distinct trimmed names and is the identity on those |
| ModelNames.MergeModelNames | controller/channel_upstream_update.go:107-121 | the accumulator loop computes the order-preserving union |
| ModelNames.MergeClean | controller/channel_upstream_update.go:107-121 | merging is union of names, without duplicates |
| ModelNames.SubtractClean | controller/channel_upstream_update.go:123-132 | subtracting is difference of names, without duplicates |
| ModelNames.IntersectClean | controller/channel_upstream_update.go:134-143 | intersecting is intersection of names, without duplicates |
| ModelNames.ApplySelectedMeans | controller/channel_upstream_update.go:145-150 | applying a selection keeps the old names in order but the removed ones not also added, then appends the new names in order |
| UpstreamSync.PendingMeans | controller/channel_upstream_update.go:179-238 | pending additions are the upstream names missing locally, not a mapping target and not ignored, in upstream order; pending removals the local names neither upstream nor mapped, in local order |
| UpstreamSync.StagedToAddIff | controller/channel_upstream_update.go:205-227 | a name is staged for addition exactly when upstream has it and it is neither local, nor the target of a redirect, nor ignored by some entry |
| UpstreamSync.StagedToRemoveIff | controller/channel_upstream_update.go:228-236 | a name is staged for removal exactly when it is local, not upstream and not the source of a redirect |
| UpstreamSync.EntryMeans | controller/channel_upstream_update.go:213-219 | an ignore entry written `regex:` is a pattern, trimmed; any other ignores the name it spells |
| UpstreamSync.StoredRoundTrip | model/channel.go:300-305 | a clean list without commas survives being joined, stored and split again |
| UpstreamSync.LocalHasNoComma | model/channel.go:300-305 | names read from the stored list contain no comma |
| UpstreamSync.SelectMeans | controller/channel_upstream_update.go:919-938 | what is applied is a clean part of what is staged |
| UpstreamSync.NextModels | controller/channel_upstream_update.go:940-946 | the stored list after an apply is the old one without the removals, then the additions, in order |
| UpstreamSync.NextIgnoredMeans | controller/channel_upstream_update.go:947-950 | after an apply a name is ignored iff it was, or is newly ignored and not added |
| UpstreamSync.StillMissing | controller/channel_upstream_update.go:919-967 | after an apply the names still missing are the staged ones not added and not ignored |
| UpstreamSync.ApplyKeepsAdditions | controller/channel_upstream_update.go:951-955 | the staged additions left equal a fresh detection, as sequences |
| UpstreamSync.ApplyKeepsRemovals | controller/channel_upstream_update.go:951-955 | the staged removals left equal a fresh detection, as sequences |
| UpstreamSync.ApplyKeepsCurrent | controller/channel_upstream_update.go:919-967 | any selection leaves staged lists equal to recomputing the diff |
| UpstreamSync.AutoSyncAppends | controller/channel_upstream_update.go:498-507 | auto-sync appends exactly the pending additions |
| UpstreamSync.AutoSyncSettles | controller/channel_upstream_update.go:498-507 | after auto-sync nothing is pending to add and the pending removals are unchanged |
| UpstreamSync.CheckMakesCurrent | controller/channel_upstream_update.go:474-521 | a check that is carried out leaves staged lists equal to recomputing the diff, auto-sync or not |
| UpstreamSync.CheckedWhen | controller/channel_upstream_update.go:480-497 | a check is carried out, and dated, exactly when it is forced, the first, or late enough; else nothing changes |
| UpstreamSync.AddedAtOnceWhen | controller/channel_upstream_update.go:498-510 | additions are stored at once exactly when that is asked for and switched on; else they are staged |
| UpstreamSync.StepKeepsInv | controller/channel_upstream_update.go:474-521 | every check and apply, its write succeeding or not, keeps the staged lists equal to the diff against the last upstream seen |
| UpstreamSync.StagedNeverStale | controller/channel_upstream_update.go:919-967 | over every run of checks and applies, saved or not, the staged lists equal the recomputed diff |
| UpstreamSync.ApplyEverythingSettles | controller/channel_upstream_update.go:986-1026 | applying everything leaves nothing staged, nothing pending, and the local names that are upstream or mapped followed by the additions |
| UpstreamSync.SettledIsFixedPoint | controller/channel_upstream_update.go:474-521 | with nothing staged another check changes nothing but the time, and local and upstream names agree up to mapping and ignoring |
| UpstreamLimits.CommaIsLost | controller/channel_upstream_update.go:940-946 | with any engine a name with a comma is added but never read back, so the staged list goes stale |
| UpstreamLimits.PatternIsNotAName | controller/channel_upstream_update.go:215-230 | a name that, ignored, misses itself or matches another upstream name makes the staged list go stale |
| UpstreamLimits.StaysCurrentIff | controller/channel_upstream_update.go:919-967 | for each engine, over all rows, selections and mappings, an apply keeps the staged lists current exactly when no upstream name holds a comma and each as an ignore entry stands for itself |
| UpstreamLimits.PlainNamesAreSane | controller/channel_upstream_update.go:215-222 | for names without the pattern marker only commas matter, with every engine |
| UpstreamLimits.LonePattern | controller/channel_upstream_update.go:215-222 | a single name with the marker is carried exactly when its pattern matches it |
| UpstreamLimits.PatternHidesAnother | controller/channel_upstream_update.go:215-222 | a pattern that matches another upstream name is not carried |
| UpstreamSync.Channel.CheckAndPersist | controller/channel_upstream_update.go:474-521 | the object's fields, its stored row, the abilities table, whether the models changed, the number added and success after a check, a failing write and a failing rebuild included |
| UpstreamSync.Channel.ApplyUpdates | controller/channel_upstream_update.go:919-967 | the object's fields, its stored row, the abilities table, the reported selection and success after an apply, a failing write and a failing rebuild included |
| UpstreamSync.Channel.UpdateAbilities | model/ability.go:280-332 | one transaction: the table lists the channel's models, or stays as it was |
| UpstreamSync.Channel.Persist | controller/channel_upstream_update.go:463-472 | one write of the settings and, when they changed, the models; or an error and the row as it was |
| UpstreamSync.Replay | controller/channel_upstream_update.go:474-967 | any run of calls, each on the channel loaded anew, leaves the row and the abilities of the modelled run |
| UpstreamSync.Channel.Overwrite | controller/channel_upstream_update.go:940-955 | every field is rewritten from the selection; the models string only when the list changes |
| UpstreamRouting.StaysInStepIff | controller/channel_upstream_update.go:512-520 | where the abilities list the stored models, a call leaves it so exactly when it writes nothing, rebuilds the table or stores the same models |
| UpstreamRouting.RoutedByStoredModels | controller/channel_upstream_update.go:957-966 | over every run of such calls requests are routed by the stored models |
| UpstreamRouting.AutoSyncStores | controller/channel_upstream_update.go:498-511 | an automatic addition stores other models and leaves nothing of that upstream to add |
| UpstreamRouting.LostRebuildLasts | controller/channel_upstream_update.go:498-520 | after an automatic addition whose rebuild fails, no run of checks of the same upstream ever routes the added models |
| KeysetScan.BatchFollows | controller/channel_upstream_update.go:973-984 | the batch after the last id seen is the next stretch of the table |
| KeysetScan.Scan | controller/channel_upstream_update.go:993-1048 | paging by last id visits every row once, in order |
| Midjourney.TaskObject.Process | controller/midjourney.go:160-211 | how one response item, the timeout included, overwrites the shared task object and decides on a refund |
| Midjourney.CommitKeepsInv | controller/midjourney.go:212-215 | a compare-and-swap, won or lost, keeps the protocol invariant |
| Midjourney.StepKeepsInv | controller/midjourney.go:77-233 | every step of every poller and every bulk failure keeps the invariant, and FAILURE stays |
| Midjourney.RefundedAtMostOnce | controller/midjourney.go:77-233 | under that discipline, in every interleaving at most one refund; credit is 0 or the quota, 0 unless a swap failed the row, the quota when a swap did and its payment went through; FAILURE means full progress |
| Midjourney.FailureIsFinal | model/midjourney.go:173-196 | once a row has failed it stays failed in every continuation |
| MidjourneySafety.FailureIsRefunded | controller/midjourney.go:160-233 | in every reachable state, a poller with a current snapshot that sees a failure, swaps and pays credits exactly the quota, for every task with one |
| MidjourneySafety.TwicePerPassIsUnsafe | controller/midjourney.go:150-211 | when a pass may handle a task twice, any two items of which the second does not repeat the first one's timeout lead to a second refund or out of FAILURE |
| MidjourneySafety.ReasonWithoutFailure | controller/midjourney.go:204-211 | any item with a reason below full progress that is no failure is refunded by two stale pollers |
| MidjourneySafety.FailureWithoutReason | controller/midjourney.go:160-211 | any failure without a reason below full progress leaves the row open to two timeouts, both refunded |
| MidjourneySafety.SafeIff | controller/midjourney.go:77-233 | for every bound per pass and every set of items: each run refunds at most once and stays failed exactly when nothing is handled, or one faithful item a pass, or only repetitions of one timeout |
| MidjourneySafety.OncePerPassSafeIff | controller/midjourney.go:77-233 | with one handling per pass, exactly when every item there may be is faithful |
| MidjourneyDelivery.SkippedIff | controller/midjourney.go:241-294 | an item is skipped exactly when it repeats the snapshot, unless it gives a reason below full progress |
| MidjourneyDelivery.ProgressIsStored | controller/midjourney.go:160-200 | in time, an item that is no failure is stored column by column, its progress included, and nothing is owed |
| MidjourneyDelivery.FailureIsStored | controller/midjourney.go:160-213 | a failure, a reason below full progress or a task over an hour old is stored as finished and owes the quota |
| MidjourneyDelivery.StaleWritesNothing | model/midjourney.go:178-184 | a poller whose snapshot has another status than the row writes nothing and owes nothing |
| MidjourneyDelivery.RestsForGood | controller/midjourney.go:160-233 | a finished task which no poller at work could still write keeps every column on every run, and nobody is paid |
| MidjourneyDelivery.DeliveredForGood | controller/midjourney.go:160-233 | a task delivered in time to a current poller is stored as delivered, cannot be picked up again, and no run of pollers afterwards fails or refunds it |
| MultiKey.SinglesSplit | controller/channel.go:1808-1886 | deleting the auto-disabled keys of a front part one by one from the back leaves its survivors and the rest |
| MultiKey.DeleteAllRevives | controller/channel.go:1888-1941 | bulk deletion with every key auto-disabled keeps all keys, enabled, and reports success |
| MultiKey.BulkEqualsSinglesIff | controller/channel.go:1888-1941 | bulk deletion gives the keys and statuses of single deletions from the highest index exactly when the list is empty or some key survives |
| MultiKey.DeleteBothWays | controller/channel.go:1808-1955 | of two equal rows, one cleared in bulk and one key by key end with equal stored keys and status maps exactly when the list was empty or some key survives |
| MultiKey.ShapeDetermines | controller/channel.go:1826-1873 | equal keys and statuses entry by entry are equal key lists and status maps |
| MultiKey.AppendEntry | controller/channel.go:1838-1856 | carrying one key over adds its entry under the new index and disturbs none before |
| MultiKey.KeyChannel.Update | model/channel.go:628-666 | an empty key leaves the stored keys; the size is recounted and statuses past it are dropped |
| MultiKey.KeyChannel.DisableKey | controller/channel.go:1652-1693 | one key disabled by hand with every other entry untouched, or an error and no change |
| MultiKey.KeyChannel.EnableKey | controller/channel.go:1695-1735 | one key enabled, its time and reason gone, or an error and no change |
| MultiKey.KeyChannel.EnableAll | controller/channel.go:1737-1759 | every key enabled without time or reason |
| MultiKey.KeyChannel.DisableAll | controller/channel.go:1761-1806 | every enabled key disabled by hand, the others left as they were |
| MultiKey.KeyChannel.Without | controller/channel.go:1826-1858 | the rebuild loop drops one entry and reindexes the rest unchanged |
| MultiKey.KeyChannel.DeleteKey | controller/channel.go:1808-1886 | one entry removed with its side entries, the last key refused |
| MultiKey.KeyChannel.Surviving | controller/channel.go:1896-1926 | the rebuild loop keeps the entries not auto-disabled, and counts the others |
| MultiKey.KeyChannel.DeleteDisabled | controller/channel.go:1888-1955 | the entries not auto-disabled remain, or an error when there is nothing to delete |
| MultiKey.Replay | controller/channel.go:1652-1955 | every run of actions keeps the size equal to the key count and every side index below it, and leaves the modelled entries |
| MultiKey.DeletionInherits | controller/channel.go:1808-1955 | a single deletion drops one entry and changes no other; a bulk deletion drops exactly the auto-disabled ones, keeps key, status, time and reason of the others in order, and clears a leftover time and reason of enabled ones only |
| MultiKey.InheritsThrough | controller/channel.go:1808-1941 | keeping one's own data composes over deletions |
| MultiKey.RunOnlyLosesKeys | controller/channel.go:1652-1955 | over every run the keys are an ordered selection of those at the start, and never all gone |
| MultiKey.DisableAllIsManual | controller/channel.go:1761-1800 | disabling all keys turns the enabled ones to disabled by hand and changes nothing else; it succeeds exactly when there was one |
| MultiKey.DisabledByHandStay | controller/channel.go:1888-1955 | a bulk deletion afterwards removes exactly the keys auto-disabled before, and leaves the others untouched |
| KeyHistory.ActionFollows | controller/channel.go:1652-1955 | after one action a surviving entry is the old one under what the action aimed at it |
| KeyHistory.EntryFollows | controller/channel.go:1652-1955 | over every run a surviving entry is its starting entry under exactly the actions aimed at it, with its own key |
| KeyHistory.EntryComesFrom | controller/channel.go:1652-1955 | over every run each entry left is one of the starting ones, with that history and its own key |
| KeyHistory.OrderIsKept | controller/channel.go:1652-1955 | over every run survivors keep their starting order |
| KeyListing.PreviewIsTextIff | controller/channel.go:1587-1591 | the ten-byte preview is valid text exactly when the key is short or its tenth byte ends a character |
| KeyListing.LineShows | controller/channel.go:1555-1599 | a line shows its key's status, time and reason unless enabled, and the key cut after ten bytes |
| KeyListing.EntryIsListed | controller/channel.go:1602-1612 | every key that passes the filter has its line, after those of the keys before it |
| KeyListing.LineComesFrom | controller/channel.go:1602-1612 | every line is that of a key that passes the filter |
| KeyListing.Gather | controller/channel.go:1556-1611 | the status lines matching the filter and the three counts over all keys |
| KeyListing.Paginate | controller/channel.go:1613-1634 | page count, clamped page number and the slice shown |
| KeyListing.ListKeys | controller/channel.go:1538-1650 | the whole listing for every page, page size and filter, zero and negative ones included |
| KeyListing.PageCountCovers | controller/channel.go:1613-1620 | the page count is the least that covers the total, and one for an empty list |
| KeyListing.PagesCover | controller/channel.go:1613-1634 | the pages put together are the whole list, each line once |
| KeyListing.CountsAddUp | controller/channel.go:1567-1611 | the three counts add up to the number of keys, and a filter shows as many lines as its count |
| PriceDiff.DiffUnique | controller/ratio_sync.go:536-696 | the specification of the difference table has one solution |
| PriceDiff.DiffersIff | controller/ratio_sync.go:612-616 | two numbers differ from 1e-9 on, two texts or flags when unequal, values of different kinds always |
| PriceDiff.OneSided | controller/ratio_sync.go:605-624 | a price only the channel has always differs, one it lacks never does |
| PriceDiff.DoubtedIff | controller/ratio_sync.go:558-591 | a price is doubted exactly when the channel gives both ratios as numbers, within 1e-9 of 37.5 and 1 |
| PriceDiff.ItemLists | controller/ratio_sync.go:656-688 | a kept item shows the local value and exactly the names under which some channel differs somewhere, each with the value and trust of the last channel of that name |
| PriceDiff.ReportUnique | controller/ratio_sync.go:536-696 | the report is determined by the prices, so no iteration order shows in it |
| PriceDiff.TellingMeans | controller/ratio_sync.go:676-687 | an item outlives pruning exactly when some channel differs visibly there, or there is a local price that a noticed channel lacks |
| PriceDiff.ReportIsDiffIff | controller/ratio_sync.go:656-688 | for any prices and names the report is the direct specification exactly when, wherever a price is hidden by the marker text or a later channel of its name, that name is noticed and something is told at that price |
| PriceDiff.NoSentinelIsHarmless | controller/ratio_sync.go:605-629 | prices that never spell the marker text, under distinct names, hide nothing |
| PriceDiff.MarkerTextHides | controller/ratio_sync.go:656-688 | a lone channel whose price is the marker text differs and does harm |
| PriceDiff.LaterNameHides | controller/ratio_sync.go:626-628 | a channel that differs, with a later one of the same name without prices, does harm |
| PriceDiffBuild.AllModels | controller/ratio_sync.go:542-556 | every model of the local table and of every channel is visited |
| PriceDiffBuild.JudgeTrust | controller/ratio_sync.go:558-591 | a channel's price for a model is trusted as specified |
| PriceDiffBuild.Judge | controller/ratio_sync.go:605-629 | what is shown for a channel and whether it really differs |
| PriceDiffBuild.Compare | controller/ratio_sync.go:595-641 | one field of one model: all channels' entries, included iff some channel differs |
| PriceDiffBuild.Build | controller/ratio_sync.go:593-654 | before pruning, a field is present iff some channel differs there |
| PriceDiffBuild.FindOffenders | controller/ratio_sync.go:656-665 | the channels with a marked entry somewhere, in any iteration order |
| PriceDiffBuild.MarksAreNoticed | controller/ratio_sync.go:656-665 | a name is marked iff the last channel of that name differs somewhere by a value other than the marker text |
| PriceDiffBuild.PruneItem | controller/ratio_sync.go:667-688 | the entries of offending channels remain; the item goes iff nothing but sameness is left |
| PriceDiffBuild.PruneAll | controller/ratio_sync.go:667-693 | every item pruned, emptied fields and models gone, in any iteration order |
| PriceDiffBuild.PrunedIsReport | controller/ratio_sync.go:667-693 | pruning what was built gives, for any prices and names, the specified report |
| PriceDiffBuild.BuildDifferences | controller/ratio_sync.go:536-696 | build-then-prune computes the report for any prices and names, which is the direct specification exactly when hidden prices do no harm, and always when no price spells the marker and no name repeats |
| ModelsDev.NearNext | controller/ratio_sync.go:881-893 | one comparison keeps the choice within 1e-9 of every priced offer, though closeness is not transitive |
| ModelsDev.ChooseNearlyCheapest | controller/ratio_sync.go:881-893 | over sorted providers the fold picks a priced offer whenever one exists, less than 1e-9 above the cheapest |
| ModelsDev.ChooseFree | controller/ratio_sync.go:881-893 | with only free offers the first provider wins |
| ModelsDev.CandidateMeans | controller/ratio_sync.go:842-878 | a cost makes an offer exactly when its input is given, nothing is negative and no free input comes with paid output; the offer has the provider's own prices |
| ModelsDev.ChooseEarliest | controller/ratio_sync.go:881-893 | every priced offer met before the chosen one is dearer, so equal costs go to the earliest provider |
| ModelsDev.OrderMatters | controller/ratio_sync.go:915-920 | what the sorting is for: over providers in another order the same comparison drifts past 1e-9 |
| ModelsDev.OffersSorted | controller/ratio_sync.go:915-920 | the loop meets each model's offers in provider order |
| ModelsDev.SelectFrom | controller/ratio_sync.go:922-943 | one provider's pass keeps the selection equal to the fold over the offers so far |
| ModelsDev.SelectCandidates | controller/ratio_sync.go:915-944 | every selection is an offer some provider really makes, with its own prices; every model with a usable cost is selected, priced if any is, and less than 1e-9 above each priced one |
| CheapestOffer.UncrowdedIsCheapest | controller/ratio_sync.go:881-893 | when no positive cost lies strictly between the least one and that plus 1e-9, sorted offers with those costs have the cheapest chosen |
| CheapestOffer.CrowdedMisses | controller/ratio_sync.go:881-893 | otherwise some sorted offers with exactly those costs have another one chosen |
| CheapestOffer.AlwaysCheapestIff | controller/ratio_sync.go:881-893 | the cheapest is chosen under every naming of the providers exactly when no positive cost lies strictly between the least one and that plus 1e-9 |
| CheapestOffer.MissedInCatalogue | controller/ratio_sync.go:915-944 | for all other costs there is a catalogue with those costs whose selection is not the cheapest offer |
| BodyStorage.BytesIsInvisible | common/body_storage.go:225-257 | taking all bytes anywhere in a run changes no other observation and not the object, and yields the payload or the closed error |
| BodyStorage.RunKeeps | common/body_storage.go:62-116 | over every run the payload stays, closing is final, readers are never taken away |
| BodyStorage.ReadersReplay | common/body_storage.go:98-108 | in every run a reader yields exactly the bytes that follow from where it stood, however cut and whatever else happens, the storage's closing included |
| BodyStorage.ReadersSurviveClose | common/body_storage.go:259-275 | closing at any moment changes nothing an earlier reader yields |
| BodyCursor.ClosedErrorIff | common/body_storage.go:62-116 | in every run a call on the storage gets the closed error exactly when it was closed before |
| BodyCursor.SeekLeads | common/body_storage.go:71-78 | a seek leads to its base plus offset, and fails, staying, exactly when that is before the start |
| BodyCursor.StorageReadsOn | common/body_storage.go:62-69 | over every run without seeks and closings the storage yields exactly the payload from where it stood |
| BodyCursor.RewoundReplays | common/body_storage.go:62-78 | rewound at any time, an open storage yields the payload from its start again |
| BodyCursor.NewReaderReplays | common/body_storage.go:98-108 | a reader opened at any time yields the payload from its start in every run |
| BodyCursor.EndIff | common/body_storage.go:62-69 | the end is reported exactly when nothing is left |
| BodyStorage.AlikeIff | common/body_storage.go:196-203 | memory and disk leave the same object after every call, and answer alike exactly when it is not a read of no bytes with none left |
| StorageObjects.MemoryStorage.Read | common/body_storage.go:62-69 | a read of any size is the abstract read |
| StorageObjects.MemoryStorage.Seek | common/body_storage.go:71-78 | a seek is the abstract seek, the negative target included |
| StorageObjects.MemoryStorage.Bytes | common/body_storage.go:89-96 | the whole payload, or the closed error |
| StorageObjects.MemoryStorage.NewReader | common/body_storage.go:98-108 | a new independent cursor at the start, or the closed error |
| StorageObjects.MemoryStorage.Close | common/body_storage.go:80-87 | closing sets the flag and leaves the readers |
| StorageObjects.DiskStorage.Read | common/body_storage.go:196-203 | a read through the descriptor is the same abstract read, but a read of no bytes with none left succeeds |
| StorageObjects.DiskStorage.Seek | common/body_storage.go:205-212 | a seek through the descriptor is the same abstract seek |
| StorageObjects.DiskStorage.Bytes | common/body_storage.go:225-257 | seeking to the start, reading all and seeking back returns the payload and restores the cursor |
| StorageObjects.DiskStorage.NewReader | common/body_storage.go:259-275 | a second descriptor of the same file is a new independent cursor |
| StorageObjects.DiskStorage.Close | common/body_storage.go:214-223 | closing the descriptor and unlinking the file leaves the readers their contents |
| StorageObjects.RunBoth | common/body_storage.go:62-283 | any run of operations leaves both storages the same object, observed on memory as the abstract object answers, and identically on disk exactly when no call reads no bytes with none left |
| StorageObjects.CompareReads | common/body_storage.go:62-203 | the two storages answer a read alike exactly when they are closed, it asks for a byte or one is left |
| StorageAccounting.StepBalanced | common/disk_cache_config.go:109-134 | every creation, failed creation and closing keeps all four counters equal to the counts and byte totals of the open storages |
| StorageAccounting.CountersBalance | common/disk_cache_config.go:109-134 | the same over every run, closings repeated or not |
| StorageAccounting.CreatedWhere | common/body_storage.go:286-304 | a plain creation goes to disk exactly when enabled, at least the threshold, within the budget and written; else to memory |
| StorageAccounting.StreamedWhere | common/body_storage.go:307-348 | a streamed creation is refused when reading fails or the body is too long, or the chosen disk fails; else it is stored as chosen |
| StorageAccounting.FloorNeverFires | common/disk_cache_config.go:115-122 | a closing always finds its own file and bytes in the counters |
| StorageAccounting.ClosingFrees | common/body_storage.go:80-87 | in every run closing an open storage takes its own share off its two counters and closes no other; closing again changes nothing |
| StorageAccounting.StepWithinBudget | common/disk_cache_config.go:170-177 | an operation that does not understate its length keeps disk usage within the maximum |
| StorageAccounting.NothingOpenNothingCounted | common/disk_cache_config.go:109-134 | when every storage a run created has been closed, all four counters are zero |
| StorageAccounting.UnderstatedOverruns | common/body_storage.go:307-348 | for every streamed creation on disk longer than declared there is one plain creation before it with which it overruns the budget |
| StorageAccounting.KeepsBudgetIff | common/body_storage.go:307-348 | an operation stays within the maximum after every plain run exactly when it is not such a creation |
| StorageAccounting.UsageWithinBudget | common/body_storage.go:286-304 | disk usage stays within the maximum on every run that understates nothing |
| StorageAccounting.Stats.NewDiskStorage | common/body_storage.go:127-157 | a file is counted only when it was written |
| StorageAccounting.Stats.CreateBodyStorage | common/body_storage.go:286-304 | disk when enabled, large enough, available and written, else memory |
| StorageAccounting.Stats.CreateBodyStorageFromReader | common/body_storage.go:307-348 | the streamed creation, its errors and the counters it leaves |
| StorageAccounting.Stats.CloseOne | common/body_storage.go:214-223 | the first closing takes the storage out of the counters, later ones do nothing |
| StorageAccounting.Stats.Replay | common/disk_cache_config.go:109-134 | any run on the counters leaves the modelled ledger, balanced |
| OggScan.GetOpusDuration | common/audio.go:196-254 | on arbitrary bytes the loop ends, and its total is the largest granule position of the pages visited, never below zero, over 48000 |
| OggScan.AddUp | common/audio.go:242-245 | the page size is the sum of the segment table |
| OggScan.SumSplits | common/audio.go:242-245 | the sum over the table is made of its entries and splits anywhere |
| OggScan.BestIsMaximum | common/audio.go:229-232 | the running total is the maximum of the visited granule positions and zero |
| OggScan.VisitsAreHeaders | common/audio.go:207-229 | every page taken is a whole header that begins with OggS, each after the one before |
| OggScan.LittleEndianRoundTrip | common/audio.go:228-229 | reading a number back from its little-endian bytes gives the number |
| OggScan.ReadAnywhere | common/audio.go:226-248 | a page is read the same wherever it lies in the stream |
| OggScan.ScanVisitsThePages | common/audio.go:207-249 | a stream of pages followed by less than a header is scanned as exactly those pages, each at its own position |
| OggScan.SerializedIsPage | common/audio.go:226-248 | a record of the RFC 3533 layout serializes to one page that reads back its granule position |
| OggScan.SerializedScan | common/audio.go:207-249 | scanning serialized pages visits each once, in order, with its own granule position |
| OggScan.SerializedDuration | common/audio.go:196-254 | in a file of serialized pages and a short tail the best of what is visited is the pages' largest granule position, or 0 |
| OggScan.DurationOfPages | common/audio.go:196-254 | the method's total on such a file is that granule position, and the duration that over 48000 |
| OggScan.ResyncIff | common/audio.go:219-226 | among junk before, between and after the pages the scanner finds exactly the pages iff no capture pattern begins in any of it |
| OggScan.LeadingJunkIff | common/audio.go:219-226 | with leading junk only, it finds exactly the pages iff no capture pattern begins in the junk |
| Utf8Truncate.BoundaryIff | common/review_request_context.go:412-414 | in valid text a prefix is valid exactly when it ends where a character starts |
| Utf8Truncate.CutIsLongest | common/review_request_context.go:411-415 | the cut is the longest valid prefix that fits and gives up at most three bytes |
| Utf8Truncate.TruncateWithSuffix | common/review_request_context.go:401-416 | the backward search computes the specified cut, within the limit, for any bytes |
| Utf8Truncate.TruncatedValidIff | common/review_request_context.go:401-416 | valid text with a valid suffix stays valid exactly when the suffix fits, nothing is cut, or the limit is a character boundary |
| Utf8Truncate.Utf8IsValid | common/review_request_context.go:401-416 | every text is encoded as valid bytes |
| Utf8Truncate.ValidIsUtf8 | common/review_request_context.go:401-416 | valid bytes are the encoding of some text, so overlong forms, surrogates and values past U+10FFFF are not valid |
| Utf8Truncate.LongSuffixSplits | common/review_request_context.go:408-410 | a euro sign cut to one byte is not valid |
| ReviewCapture.Redact | common/review_request_context.go:220-269 | the recursion computes a capture of the value at its depth |
| ReviewCapture.RedactFields | common/review_request_context.go:225-247 | of an object, the first 40 keys in order, sensitive and media keys replaced by their markers |
| ReviewCapture.RedactItems | common/review_request_context.go:248-260 | of an array, 24 items and a marker when there were more |
| ReviewCapture.NothingLeaks | common/review_request_context.go:220-269 | two values that differ only under sensitive or media keys, past the key or item limit or too deep have the same capture |
| ReviewCapture.CaptureUnique | common/review_request_context.go:220-269 | a value has at most one capture |
| ReviewCapture.CaptureBounded | common/review_request_context.go:220-269 | at every level at most 40 keys and 25 items, markers in place, and no deeper than 6 levels |
| ReviewEvidence.VisibleIsShown | common/review_request_context.go:220-269 | what lies on a path of at most 40 first keys, none hidden, and 24 first items is found there in the capture: numbers and flags as they were, texts masked and cut, deeper values as one marker |
| ReviewEvidence.HiddenIsMarked | common/review_request_context.go:236-244 | under a sensitive or media key there is its marker |
| ReviewEvidence.LongListIsMarked | common/review_request_context.go:248-260 | a longer list shows 24 items and says that there were more |
| ReviewEvidence.RedactWhole | common/review_request_context.go:208-269 | for a whole request this holds down to six levels, and the seventh is a marker |
| ReviewCapture.FirstUnique | common/review_request_context.go:230-235 | the least n keys are one set |
| ReviewCapture.CopyHeaders | common/review_request_context.go:271-303 | the first 40 header names in order, at most 4 redacted values each |
| ReviewCapture.Greatest | common/review_request_context.go:312-317 | the search over the map finds its greatest name |
| ReviewCapture.RedactHeaders | common/review_request_context.go:271-322 | what is kept is the longest run of the first names, at most 40, that fits the byte budget, or none |
| ReviewEvidence.HeaderIsShown | common/review_request_context.go:271-322 | a kept header value hides a sensitive one, marks media, and else is the masked value, cut |
| ReviewConfig.PatchKeepsProbed | controller/llm_review.go:138-283 | an update either voids the flags or keeps everything a probe runs with |
| ReviewConfig.UpdateAppliesCandidate | controller/llm_review.go:138-283 | an accepted update leaves the candidate in place, in its effective mode |
| ReviewConfig.SavedIsProbed | controller/llm_review.go:440-489 | after a passing test is saved, what is in use is what the probe ran with |
| ReviewProbes.FirstPassingMeans | service/llm_review_client.go:393-425 | the mode found passes and all tried before it fell back; none is found when all fall back or the next one fails |
| ReviewProbes.UntestedIff | service/llm_review_client.go:387-425 | an untested configuration passes in strict mode, or in the next one after each rejection of structured output |
| ReviewProbes.TestedIff | service/llm_review_client.go:389-391 | a tested configuration passes only in the mode it uses |
| ReviewProbes.RecordedWasAnswered | controller/llm_review.go:386-497 | one event records at most one probe, and only one of an allowed address that the endpoint answered with a pass |
| ReviewProbes.EveryRecordWasAnswered | controller/llm_review.go:386-497 | over every run each recorded probe comes from such a test |
| ReviewProbes.FlagMeansAnswered | controller/llm_review.go:138-559 | on every run without the two faults a set flag means the endpoint answered a probe of exactly the current configuration with a pass |
| ReviewUpdates.UpdateShows | controller/llm_review.go:138-283 | what an accepted update leaves of each option, and that the flags go exactly when a probed part differs or a key is given |
| ReviewUpdates.RefusedChangesNothing | controller/llm_review.go:138-283 | a refused or unsaved update changes nothing |
| ReviewUpdates.AcceptedIff | controller/llm_review.go:154-265 | an update is accepted exactly when what it gives is valid, an enabled service keeps a policy, and switching on finds a configured, tested service whose tested parts it leaves |
| ReviewUpdates.UnknownModeRefused | controller/llm_review.go:181-187 | an unknown output mode is refused |
| ReviewUpdates.ClearShows | controller/llm_review.go:532-559 | clearing the key empties it and voids both flags, and changes nothing else |
| ReviewUpdates.PassShows | controller/llm_review.go:442-497 | after a saved pass the record in use is the one probed, marked in its mode, the rest untouched |
| ReviewUpdates.UnsavedPassShows | controller/llm_review.go:442-463 | a pass whose options cannot be saved changes neither copy |
| ReviewUpdates.NothingNewNeedsNoSave | controller/llm_review.go:442-463 | a test of what is in use anyway saves no options first, so that save cannot fail |
| ReviewUpdates.FailureShows | controller/llm_review.go:407-440 | a test that no mode passes voids both flags, and changes nothing else |
| ReviewUpdates.RetestedIff | controller/llm_review.go:314-356 | a test counts as a retest exactly when the record was tested and the request leaves all tested parts |
| ReviewUpdates.UnconfiguredIsNotTested | controller/llm_review.go:396-406 | without an address or a model there is no test |
| ReviewUpdates.EnabledOnlyAfterAPass | controller/llm_review.go:240-258 | over every run without the two faults, switching on succeeds only if the endpoint passed a probe of exactly the configuration then in use |
| ReviewConfig.StepKeepsInv | controller/llm_review.go:138-559 | every handler and reload, free of the two faults, keeps a set flag speaking of the last passing probe, in memory and in store |
| ReviewConfig.UnsavedCandidate | controller/llm_review.go:442-463 | a passing candidate that cannot be saved leaves the old flag beside a newer probe |
| ReviewConfig.HalfSavedPass | controller/llm_review.go:458-489 | a pass whose last save fails, then a reload, leaves a flag for a mode that was never probed at that address |
| ReviewConfig.CertifiedIff | controller/llm_review.go:138-559 | on every run a set flag means the last passing probe used the current address, key, model, private flag and effective mode, exactly when those faults are excluded |
| ReviewConfig.BackedIff | controller/llm_review.go:138-559 | on every run a set flag means some passing probe used the current configuration, exactly when a lost last save is not followed by a reload |
| ReviewConfig.EnabledHasPolicy | controller/llm_review.go:240-265 | whatever fails or reloads, an enabled service has a policy |
| ReviewConfig.EnablingNeedsATest | controller/llm_review.go:240-258 | switching on succeeds only for a configured and tested service with a policy, and leaves it so |
| ReviewConfig.EnabledMayBeUntested | controller/llm_review.go:154-164 | changing the address of an enabled service leaves it enabled and untested |
| ReviewReadiness.StaysReadyIff | controller/llm_review.go:138-559 | if an enabled service may be enabled, it stays so after an event exactly when the event, checked beforehand, is harmless |
| ReviewReadiness.ReadyThroughoutIff | controller/llm_review.go:138-559 | over every run from such a state, enabled implies tested all along exactly when every event is harmless where it comes |
| ReviewReadiness.EnabledUntestedRun | controller/llm_review.go:138-283 | from the start, a passing test, switching on with a policy and a new address end enabled and untested |
| ReviewConfig.Settings.Save | service/llm_review_settings.go:14-31 | one save writes the options to store and memory, or fails and writes nothing |
| ReviewConfig.Settings.UpdateConfig | controller/llm_review.go:126-283 | the branches build the candidate and its options as specified; a rejected or failed update changes nothing |
| ReviewConfig.Settings.ApplyCandidate | controller/llm_review.go:314-356 | the candidate laid over the stored configuration, flags void when a probed part differs |
| ReviewConfig.Settings.ProbeCapability | service/llm_review_client.go:382-430 | the first passing mode, falling back only on rejections of structured output; a tested configuration is probed in its own mode only |
| ReviewConfig.Settings.TestSchema | controller/llm_review.go:386-497 | the state after a test in every outcome, failed saves included |
| ReviewConfig.Settings.ClearKey | controller/llm_review.go:532-559 | the key and both flags are cleared, or nothing changes |
| ReviewConfig.Settings.Replay | controller/llm_review.go:138-559 | any run of handlers leaves the modelled system and, free of the two faults, a certified flag |
| QuotaMath.InRange | common/quota_math.go:72-87 | every conversion, of NaN too, lands in the 32-bit range |
| QuotaMath.ConversionsMonotone | common/quota_math.go:98-134 | a larger amount never converts to a smaller quota, infinities included |
| QuotaMath.ConversionsKeepSign | common/quota_math.go:98-134 | a charge never becomes a credit, nor a credit a charge |
| QuotaMath.ExactIsClose | common/quota_math.go:98-134 | an exact truncation is less than one away and never farther from zero, an exact rounding at most a half away, halves from zero |
| QuotaMath.ClampedIff | common/quota_math.go:72-87 | what is clamped, to what and why: NaN to zero, the rest to the end it lies at or beyond |
| QuotaMath.StrictIff | common/quota_math.go:88-93 | the strict forms succeed exactly when nothing is clamped, which is strictly inside the range |
| QuotaMath.ValueMeans | common/quota_math.go:138-154 | a decimal without places is its coefficient, and a place more is a zero more |
| QuotaMath.EndsAreRejected | common/quota_math.go:77-80 | both ends of the range convert to themselves yet are rejected by the strict form |
| QuotaMath.DecimalAgreesWithRound | common/quota_math.go:138-154 | rounding a decimal by whole-number division and rounding its value convert alike |
| Ordering.AscendingUnique | controller/ratio_sync.go:915-920 | a set of names has one sorted enumeration |
| Ordering.SortKeys | common/review_request_context.go:226-230 | sorting the keys of a map enumerates them in ascending order, each once |

## Left out

- Threads and mutexes: every locked method is one atomic step; only the Midjourney protocol is modelled as an interleaving.
- Integer widths: the clock, identifiers and sizes are unbounded integers; 64-bit overflow is not modelled.
- Floating point: prices and quotas are real numbers (quotas with NaN and infinities); rounding error is not modelled, nor the rounding of ratios to six places and the conversion of models.dev costs to ratios after the selection.
- RequestWindow.WindowNeverOverfull: runs hold no `Delete`, which forgets a key's admissions on purpose, and each key has one limit and one duration.
- RateLimiter.Limiter.Request: for a limit below one it requires what keeps the source from a run-time panic, a non-empty stored queue, or a new key and a limit of zero.
- RateLimiter.ReplayReservations: runs hold neither `Delete` nor a second limit or duration for the key.
- ReservationWindow.SweepSparesReservations: the clock is a 64-bit count of nanoseconds that stood at least nine seconds after the epoch when the limiter started.
- UpstreamSync.StagedNeverStale: upstream names are those the stored formats can carry, the exact condition above; regular expressions are an arbitrary predicate and the channel's mapping is fixed during a run.
- UpstreamSync.Channel.UpdateAbilities: the table is modelled by the list of models it was built from; the groups, priorities and model policies it also holds are left out.
- KeysetScan.Scan: the table does not change while it is scanned.
- Midjourney.RefundedAtMostOnce: one task row; the swap is atomic on the status, a payment either happens or fails, and writers outside the poller, such as the relay's notification handler, are not modelled. The grouping of tasks by channel and the HTTP request are left out.
- MultiKey.KeyChannel.Update: the JSON array form of the key string is not modelled.
- MultiKey.Replay: the stored key string is newline-separated keys; the JSON array form of keys, failing database writes and the channel's own status are not modelled.
- PriceDiffBuild.BuildDifferences: a price that is present is a number, a text or a flag; a price decoded as JSON null, which the code treats as absent in some tests and present in others, is not modelled.
- StorageObjects.RunBoth: closing a reader itself is not among the operations (a memory reader ignores it, a file reader does not), input and output errors do not occur, and the two Linux-only seek modes are not offered by the interface.
- StorageAccounting.UsageWithinBudget: creations happen one at a time under a fixed configuration; the sweeps and resets that change the counters or files without their owner are not modelled, nor the hit counters.
- OggScan.GetOpusDuration: the reader returns full reads while bytes remain, and seeking past the end succeeds; the pre-skip of section 4.2 of RFC 7845 is not subtracted by the source, so the result is the end position rather than the playing time.
- ReviewCapture.Redact: values decoded from JSON only; string slices and multipart forms, the key and value tests for sensitive and media content, masking and the encoded size are left as parameters.
- ReviewConfig.Settings.Save: one transaction, after which the options of this group are put in memory without an error path of their own (model/option.go:284-317).
- ReviewConfig.Step: a reload takes over the whole stored copy, an option never saved at its default; the source applies only the rows that exist (model/option.go:224-232). No theorem turns on it.
- ReviewConfig.CertifiedIff: encryption of the key does not fail and the key is modelled in the clear; timestamps, versions, the error text, and the plain numeric settings other than attempts and workers are left out.
- QuotaMath.DecimalAgreesWithRound: decimals with a non-negative number of places; a decimal with a positive exponent is written with none.
- The remaining settings, HTTP handlers, JSON binding, audit logs, the relay's retry loops, sign-in, payment, other audio formats and the Redis limiter: input and output, or sequences of calls into other packages.
