# Verified model of the alert bot and its ops agent

A Dafny model of the parts of the repository where several steps, workers or functions must agree:

- **Alert delivery** (`AlertTable`, `Telegram`, `Cooldown`, `Delivery`, `DeliverySafety`, `DeliveryOutcomes`,
  `DeliveryRuns`, `Recipients`). Workers of several events and heartbeats race to send to one user and coin. `Delivery`
  is a transition system whose steps are the atomic actions of the code: a stale bulk preflight, the per-user-and-coin
  lock, the recheck under it (clock read and query are separate steps), the reservation, every single Telegram request
  and its arbitrary answer, the record of `sent_at`, the outcome row, release, and a crash at any point.
  `DeliverySafety` proves what every run keeps, `DeliveryOutcomes` what the outcome rows say about it, and `Recipients`
  that a whole dispatch over any run accounts for every loaded user once.
- **One analysis per event** (`Attachment`): the statements by which checks of one market situation find or create the
  event and attach an analysis, interleaved.
- **The cooldown audit** (`Audit`) and **end to end** (`EndToEnd`, `ServedEvents`): the audit's scan counts what an
  order-free definition counts, and it reports nothing on any run of the delivery protocol if and only if a condition
  on the checks of the events holds, which is then decided for the events the key canonicaliser can produce.
- **Bundles** (`BundleSpec`, `BundleWriter`, `BundleCheck`): a size-capped file set with a manifest that counts against
  the cap and names what was dropped, published by one rename, and its validator.
- **Messages** (`Utf16`, `Message`, `Prices`, `Sampling`): link offsets in UTF-16 units, an HTML and a plain rendering
  of one text, a price printer and the validator of quoted prices, and the choice of representative snapshots.
- **Similar alerts** (`Clustering`) and **the report cache** (`Reports`): greedy clustering, and double-checked
  generation of reports under a lock with freshness, upgrade and backoff delays.

Times are integers (microseconds in the delivery modules, seconds in `Reports`). Files are sequences of bytes.
Databases, Telegram, clocks, text cleaning, JSON and SHA-256 are parameters or adversarial answers; what is used of
each is written as a predicate next to the code that uses it.

Where the code and its documentation or comments differ, the model follows the code: see `ServedEvents` and `Reports`
in the table for the exact conditions under which a documented guarantee holds.

## Model

| member | source | states |
|---|---|---|
| Cooldown.NewestRepeat | bot/alerts.py:4655-4699 | Stopping at the first matching context of a newest-first list decides as a search of the whole table would: a repeat inside the cooldown exists exactly when the one found is inside it. |
| Cooldown.Filter | bot/alerts.py:4589-4808 | Keeps, in order, exactly the recipients the product rule allows; every other one gets one refusal with the rule's reason; a semantic refusal names an alert that really repeats; the two counts add up to the refusals. |
| Cooldown.OldestFirstWouldAllow | bot/db/alerts.py:158-195 | The order of the list matters: a table and clock at which the oldest match is exactly one cooldown old while a younger match forbids the send. |
| AlertTable.KeyCases | bot/alerting/event_analysis.py:222-299 | Case by case: an event is about the price if its key text or the word lists say so, and its family is then the one of the analysed window; its key is coin and family, else the text, with the fallback for an empty or random text and the market event for a news catalyst without family. |
| AlertTable.FamilyCases | bot/alerts.py:4655-4688 | The family an earlier delivery counts as: the stored one, a price family as its own window says; with none stored the one its key names, or the window's. |
| AlertTable.CurrentCases | bot/alerts.py:4622-4632 | The family of the event being delivered: its own, normalised, or else a price family its key names. |
| Telegram.RunGuarantees | bot/alerts.py:4924-5094 | From any point of a send, for all answers: success is exactly one acknowledgement and that is the last request; failure has none; nothing follows an uncertain rich send; the remaining requests are bounded. |
| Telegram.SendGuarantees | bot/alerts.py:5046-5094 | A whole send: true exactly with one acknowledgement, the last request; false with none; at most three attempts; gives up early only on a non-transient error; too long exactly when over 4096 and then without a request. |
| Telegram.SendFollows | bot/alerts.py:4924-5094 | What must follow, over traces alone: the first channel; after a rich BadRequest an HTML or plain request, after an HTML refusal that allows it a plain one; after a retryable end of one of the first two attempts another attempt, and a pause of Telegram's own delay, else 30 and then 120 seconds; so a send fails only on an error that allows no further channel and no retry, or on its third attempt. |
| Telegram.Bot.SendOnce | bot/alerts.py:4924-4986 | One attempt makes exactly the requests of the transition system for the answers received, with the same verdict and cause. |
| Telegram.Bot.SendWithRetry | bot/alerts.py:5046-5094 | The retry loop's requests, result, attempt count and sleeps (Telegram's own delay, else 30 and 120 seconds) are one run of the transition system. |
| DeliverySafety.RunKeepsInv | bot/alerts.py:5508-5856 | Every interleaving of workers, answers, clock ticks and crashes keeps the protocol's invariant: locks, clearances, reservations, acknowledgements and the log agree with the table. |
| DeliverySafety.EligibleExactly | bot/alerts.py:4655-4758 | In the rows' own fields: an event is refused exactly when a sent Event Alert of its stored key or of its family is younger than the cooldown; a heartbeat exactly when a sent automatic alert of any kind is younger than 24 hours or, before the first one, the activation is. |
| DeliverySafety.FilterDecides | bot/alerts.py:4589-4808 | What the cooldown filter returns for one recipient is that decision: an event is kept if and only if it respects every row and, without a key, the plain cooldown since the last alert (30 minutes at most at high urgency). |
| DeliverySafety.StrictCooldown | bot/alerts.py:5613-5647 | In every run a recorded Event Alert was rechecked, and so recorded, at least one cooldown after every earlier sent alert it repeats, by key or by resolved family, rows from before the run included. |
| DeliverySafety.CooldownBetween | bot/alerts.py:5737-5753 | Two recorded Event Alerts to one user and coin, the later repeating the earlier, have `sent_at` at least one cooldown apart, whichever workers sent them. |
| DeliverySafety.HeartbeatSilence | bot/alerts.py:5964-5974 | A recorded heartbeat was rechecked at least 24 hours after every automatic alert of either kind recorded before it, with content at most two hours old then, however stale the preflight was. |
| DeliverySafety.AcknowledgedOnce | bot/db/alerts.py:352-439 | Over all workers, retries and crashes Telegram acknowledges at most one message per user, coin, kind and event, and every recorded delivery was acknowledged. |
| DeliverySafety.OneWorkerPerUserAndCoin | bot/db/alerts.py:1153-1178 | No reachable state has two workers inside the lock for one user and coin, events and heartbeats together. |
| DeliverySafety.NoLockLeft | bot/db/alerts.py:1153-1178 | In every run a lock is held only while its worker is inside: the end of a delivery and a crash release it. |
| DeliveryOutcomes.OneOutcomePerWorker | bot/alerts.py:5613-5856 | In every run a worker writes at most one outcome row; one that is done with an event's recipient and has not crashed has written exactly one, about its own user. |
| DeliveryOutcomes.DeliveredIffLogged | bot/alerts.py:5737-5856 | In every run an outcome row says delivered if and only if its worker's own delivery is in the log, under the same alert row and acknowledged. |
| DeliveryOutcomes.VerdictsMean | bot/alerts.py:5634-5736 | In every run a row suppressed under the lock names a sent alert, still in the table, that forbade the event at the recheck; a row says already delivered only over a sent alert of the same event, and failed only over one given up for good. |
| DeliveryRuns.EventDelivered | bot/alerts.py:5613-5856 | From any state where nobody works on the user and coin, the slot can be reserved and no sent alert the event repeats is younger than the cooldown, some run logs the event now, marks its row sent, changes no other row and notes delivered. |
| DeliveryRuns.HeartbeatDelivered | bot/alerts.py:5964-6030 | From any such state, with the user's last automatic alert (or, before the first, the activation) at least 24 hours back and content at most 7200 seconds old, some run logs the heartbeat now and marks its row sent. |
| DeliveryRuns.StaleStaysUnsent | bot/alerts.py:5972-5974 | A heartbeat worker whose content is older than 7200 seconds at the locked recheck reserves no row in any run. |
| DeliveryRuns.EndIsNoted | bot/alerts.py:5700-5856 | How a send ends is how its row and its outcome row end, field by field: sent, keeping an earlier `sent_at`, with the family saved, or failed for good, the chat blocked exactly when the last error says so. |
| DeliveryRuns.PauseIsNoted | bot/alerts.py:5075-5090 | A pause before another attempt leaves the row pending for retry, any other answer leaves it alone. |
| Recipients.ChosenDistinct | bot/alerts.py:2216-2297 | Chosen recipients have distinct chats and are users with no problem. |
| Recipients.ChosenExactly | bot/alerts.py:2216-2297 | In the users' own settings: a recipient is chosen if and only if it is a user with a chat, enabled and unlocked, whose chat no earlier user with those three has. |
| Recipients.ChosenInOrder | bot/alerts.py:2216-2297 | Recipients come in the order of their users. |
| Recipients.EveryUserOnce | bot/alerts.py:5404-5856 | Whatever run of the delivery protocol the fan-out was, every loaded user has exactly one outcome row over the stages; it says delivered if and only if the user's worker logged a delivery, and similar event if and only if the event was in cooldown for the user, by the filter's table or by a row still there at the locked recheck. |
| Recipients.VerdictReported | bot/alerts.py:5613-5856 | In any run a worker that is done with a user of the event has reported exactly one verdict, so the verdicts a dispatch is given exist and are determined by its run. |
| Recipients.FanoutExists | bot/alerts.py:5613-5856 | From the very table and clock the filter saw, whatever rows there are, some run serves every recipient it kept to the end, and delivers to each unless the slot holds a row that must not be sent again. |
| Recipients.OneRowPerUser | bot/alerts.py:5404-5448 | Filtered, refused at preflight and under the lock partition the loaded users: exactly one recipient-level row each, whatever the verdicts. |
| Recipients.RowsAreRight | bot/alerts.py:5508-5856 | Every row written for a user is the one the rules alone prescribe for its settings, the filter's rule and its worker's verdict (a blocked chat included), stated without the stages. |
| Recipients.UserRow | bot/alerts.py:2216-2297 | Every user's one row, literally: its first missing setting names the reason (no chat, disabled, not unlocked, duplicate chat), then the cooldowns do, then the worker's verdict, each with its status. |
| Recipients.ResolveRecipients | bot/alerts.py:2216-2297 | The one-pass loop with its set of seen chats chooses exactly the users with a chat, enabled, unlocked and first with that chat, and writes one row for each of the others. |
| Recipients.Dispatch.DeliverAll | bot/alerts.py:5613-5856 | Each recipient writes the row of the verdict its worker's run ended with; the count of sent is the number of recipients whose delivery was logged; sent, skipped and failed add up to the recipients. |
| Recipients.Dispatch.Preflight | bot/alerts.py:4589-4808 | The bulk filter passes on the allowed recipients and writes one row for each refused one. |
| Recipients.Dispatch.Run | bot/alerts.py:6717-6830 | A whole dispatch over any run of the protocol writes exactly the rows `EveryUserOnce` and `RowsAreRight` speak of and, only when nobody is left to deliver to, one row without a recipient: similar event if the event has a key and some user was eligible, else cooldown. |
| Attachment.AttachOnce | bot/db/database.py:1137-1145 | No step attaches a second analysis to an event. |
| Attachment.RunKeepsAttached | bot/db/alerts.py:956-1003 | An attached analysis stays attached in every run. |
| Attachment.OneAnalysisPerEvent | bot/alerts.py:6654-6705 | In every run an event has at most one attached analysis, every delivery carries the usable one attached to its event, and so all deliveries of one event agree, whether it was created, found or reused. |
| Attachment.NeverUnattached | bot/alerts.py:6679-6705 | In every run the fallback to a check's own unattached analysis is not taken: an attach that finds its row or the event taken goes on under the analysis attached to the event. |
| Attachment.FreshCheckSends | bot/alerts.py:6654-6705 | From any state of the invariant a new check with a usable analysis finds or creates its event, attaches its own analysis if the event has none and uses the attached one otherwise, and sends it, provided no unusable one is attached. |
| Attachment.LostRaceSends | bot/db/alerts.py:956-1003 | A check whose attach fails because another came first sends the other's analysis. |
| Attachment.SecondLookSends | bot/db/alerts.py:956-1003 | A check that had found no attached analysis and finds another's when it looks again before attaching sends that one. |
| Attachment.ReuseSends | bot/alerts.py:829-1018 | An exact-context candidate is delivered with its event's analysis. |
| Attachment.UnusableBlocks | bot/db/alerts.py:956-1003 | An unusable analysis attached to an event keeps every run from delivering that event. |
| Audit.Collect | ops_agent/alert_similarity.py:787-823 | The grouping loop builds exactly the group of every key that some audited row carries. |
| Audit.GroupRows | ops_agent/alert_similarity.py:787-823 | In the rows' own fields: a group's rows are the alerting rows with an event key and a sent count whose coin and family, else event key, are the group's; each such row without a sent count is counted as suppressed. |
| Audit.SortHits | ops_agent/alert_similarity.py:853-853 | Sorting by time, recipient and alert keeps the deliveries and orders them. |
| Audit.ZeroIffSpaced | ops_agent/alert_similarity.py:851-864 | No delivery too soon after an earlier one to the same recipient, if and only if all pairs, not only neighbours, are one cooldown apart. |
| Audit.NewHit | ops_agent/alert_similarity.py:857-864 | The last-seen entry decides whether the next delivery in order is a violation, and earlier verdicts stand. |
| Audit.RepeatChangesNothing | ops_agent/alert_similarity.py:854-856 | A repeated recipient and alert pair adds nothing to the deliveries counted. |
| Audit.Scan | ops_agent/alert_similarity.py:851-864 | The one-pass scan with its last-seen map and duplicate set counts exactly the violations of the order-free definition. |
| Audit.AuditGroup | ops_agent/alert_similarity.py:824-864 | For any rows: the candidates are the violations among the verified deliveries, and the unverified count is the sends without a verified member. |
| Audit.SilentIff | ops_agent/alert_similarity.py:824-864 | A group whose rows name each alert once has no candidate if and only if any two alerts its rows name for one recipient are a cooldown apart, each at the earliest time named. |
| Audit.UnverifiedRow | ops_agent/alert_similarity.py:824-864 | A row adds to the unverified count the sends beyond its distinct alerts that come with a recipient, an alert reference and a time. |
| Audit.UnverifiedAdds | ops_agent/alert_similarity.py:824-864 | The unverified count of a group is the sum over its rows. |
| EndToEnd.CoherentIsClean | ops_agent/alert_similarity.py:787-864 | Over checks of which any two whose events the export can put in one audit group suppress each other, the audit of every run's evidence has no candidate in any group, whichever check of an event gave its row the family and whatever family its members were delivered under. |
| EndToEnd.BothDelivered | bot/alerts.py:4655-4758 | For two checks the second of which the first does not suppress, a run delivers both to one user at once, and then one further check of each event to others, so that these label the events' rows. |
| EndToEnd.AuditCleanIff | ops_agent/collectors/db.py:112-149 | The audit is clean on every run over a set of checks if and only if any two of them whose events share a label (family, else key) under some of their checks suppress each other. |
| EndToEnd.WellLabelledIsCoherent | bot/alerts.py:4655-4693 | The condition holds when every check is well labelled by itself (a key; either one tidy family in both places, a price family agreeing with its own move, or no family and stored under its own key), checks of one event agree, and no family reads like another event's key. |
| ServedEvents.ServedWellLabelled | bot/alerting/event_analysis.py:222-299 | A check whose key and family come from one canonicalisation, which lets the sign of the analysed window override a price family, is well labelled unless it has no family and was reused under another key. |
| ServedEvents.ServedCleanIff | bot/alerts.py:4592-4693 | Over the events the code can serve, fresh or reused, the audit is clean on every run if and only if any two checks whose events meet (in a family, or family-less in their stored key) hold each other back: by the stored key, or because the earlier delivery resolves to the family the later check has or its key names. |
| ServedEvents.SteadyIsClean | bot/alerts.py:4540-4581 | Events whose checks all have the key they are stored under are audited clean on every run. |
| ServedEvents.FreshIsClean | bot/alerts.py:4232-4261 | Events that are never reused are audited clean on every run, without further condition. |
| ServedEvents.ReuseCleanIff | bot/alerts.py:829-1018 | With exact reuse, which reads a stored key such as btc_down_0_05_in_the_last_3_hours again as a raw one, only events without a family can fail: the audit is clean on every run if and only if those stored under one key hold each other back. |
| ServedEvents.ReusedKeyRepeats | bot/alerts.py:952-1007 | Two events without a family, reused under a stored key that now canonicalises differently and names no price family, are reported. |
| ServedEvents.RereadRepeats | bot/alerting/event_analysis.py:233-237 | So are any two events created and exactly reused whose fallback key reads as another text that names nothing. |
| ServedEvents.CoinNameRepeats | bot/alerting/event_analysis.py:690-721 | Such a key arises on a flat window: the coin's full name among its first words stays in the key and is replaced only when the key is read. |
| EndToEnd.ExportedTimes | ops_agent/collectors/db.py:151-175 | The reservation time that the collector exports as the delivery time lies between recheck and record, for rows the delivery inserted. |
| TextOrder.SortedNames | ops_agent/bundle.py:296-301 | Sorted names of a set: exactly its members, each once, in Python's string order. |
| TextOrder.TextLeqMeans | ops_agent/bundle.py:296-301 | String order: a prefix comes first, and otherwise the first differing character decides. |
| BundleSpec.SizeWith | ops_agent/bundle.py:303-304 | The size of a directory grows by exactly the bytes of a file added. |
| BundleSpec.CandidatesByPriority | ops_agent/bundle.py:306-344 | Candidates for dropping come in priority order, raw samples first and state snapshots last; they are the fixed candidate files and all excerpts of either kind that exist, and never a mandatory file. |
| BundleSpec.CandidatesListed | ops_agent/bundle.py:306-344 | The candidates, path by path and group by group, with the excerpts of either kind that exist in name order. |
| BundleSpec.InventoryLists | ops_agent/bundle.py:433-460 | The inventory has one entry per file but the manifest, in path order, with its bytes, digest and private mark. |
| BundleSpec.PendingCounts | ops_agent/bundle.py:392-408 | What is weighed against the cap is the files, the text of a manifest that tells of them with all collectors and warnings, and a newline. |
| BundleSpec.SplitJoined | ops_agent/bundle.py:360-378 | The list of dropped files splits at the comma and space into exactly those files in order. |
| BundleSpec.NewestSizeWarning | ops_agent/bundle.py:410-417 | Setting a size warning replaces the earlier one and leaves the other warnings. |
| BundleSpec.StaleWarningIsShorter | ops_agent/bundle.py:360-378 | The files weighed with a warning that still names fewer of them never weigh more than with the true warning. |
| BundleWriter.FirstCallDetermined | ops_agent/bundle.py:346-390 | A first enforcement succeeds if and only if the files fit as they are or after dropping some prefix of the existing candidates with the warning naming it; the files dropped, the warning and the status are then determined. |
| BundleWriter.DroppedAreNamed | ops_agent/bundle.py:346-390 | After a first enforcement that dropped files: those and no others are gone, one new warning lists exactly them in order behind its prefix, the size-limit status is on record once, and the manifest that tells all this fits with the files. |
| BundleWriter.EnforcedKeeps | ops_agent/bundle.py:346-390 | Whatever enforcement does, every mandatory file stays with its content and nothing is added. |
| BundleWriter.Writer.constructor | ops_agent/bundle.py:125-133 | A fresh writer: nothing staged, the published bundles as found. |
| BundleWriter.Writer.Initialize | ops_agent/bundle.py:153-162 | Refuses an existing staging directory, else leaves one with the instructions only. |
| BundleWriter.Writer.Write | ops_agent/bundle.py:65-69 | Ends with the content in place; at every moment between, at worst a prefix of it. |
| BundleWriter.Writer.BundleSize | ops_agent/bundle.py:303-304 | The loop over the files computes the size of the directory, in whatever order they come. |
| BundleWriter.Writer.ManifestPayload | ops_agent/bundle.py:433-460 | The walk over the sorted files gives a manifest that tells the status, all collectors and all warnings and lists every file but the manifest once, with size, digest and private mark. |
| BundleWriter.Writer.PendingSize | ops_agent/bundle.py:392-408 | Files plus the manifest that would now be written, newline included. |
| BundleWriter.Writer.Enforce | ops_agent/bundle.py:346-390 | Terminates; returns only when files and pending manifest, warning included, are within the cap, and raises only with no candidate left and a pending size over the cap, which its one size warning names; drops existing candidates in priority order; on a first call, exactly the shortest prefix that fits together with the warning naming it, or none fits. |
| BundleWriter.Writer.Review | ops_agent/bundle.py:219-237 | Missing mandatory files make the status failed and add the failed finalisation and its two warnings, naming the files; otherwise a non-ok collector makes complete partial and nothing is added. |
| BundleWriter.Writer.Finalize | ops_agent/bundle.py:181-253 | Complete is returned only if it was given, no mandatory file is missing and every collector is ok; partial only with a collector that is not ok; the pending size is within the cap unless files are missing and the status was failed already; no mandatory file is lost; it raises only over the cap with nothing left to drop. |
| BundleWriter.Writer.WriteManifest | ops_agent/bundle.py:72-81 | Writes beside the manifest's place and moves it there: no moment has a torn manifest. |
| BundleWriter.ManifestInPlace | ops_agent/bundle.py:424-460 | A manifest put in place lists exactly the other files of its directory, says the settled status, and the directory is as large as was foreseen. |
| BundleWriter.Writer.Publish | ops_agent/bundle.py:164-179 | Renames only a staged bundle with a manifest to a free name, and otherwise changes nothing. |
| BundleWriter.Writer.Settle | ops_agent/cli.py:326-348 | The status settles within three rounds always, so the "did not stabilize" error cannot occur, and within two when all mandatory files are present. |
| BundleWriter.Writer.Conclude | ops_agent/cli.py:326-351 | Publishes at most this one bundle: at every step, torn writes included, the published tree is the old one or the old one with this whole bundle. Its decoded manifest tells the writer's collectors and warnings and lists its files; complete means all collectors ok and all mandatory files present, partial that a collector is not ok, failed that a mandatory file is missing; complete or partial means within the cap. It is given up only over the cap with nothing left to drop, and refused exactly when its name is taken. |
| BundleCheck.ChecksumErrors | ops_agent/cli.py:468-487 | The loop names every inventory entry that is malformed, absent or of another digest, in order, and complains of an absent or empty inventory. |
| BundleCheck.BadMeans | ops_agent/cli.py:468-487 | For any manifest: no or an empty inventory is the one complaint; otherwise the complaints are an entry that is no object, an entry without a path, and exactly the listed paths that are absent or of another digest. |
| BundleCheck.MissingFiles | ops_agent/cli.py:457-465 | Exactly the mandatory files that are absent, sorted. |
| BundleCheck.Validate | ops_agent/cli.py:490-499 | Missing files and bad entries together; an absent manifest is itself bad, an unreadable one an error. |
| BundleCheck.VerdictCases | ops_agent/cli.py:490-499 | For any directory: an absent manifest is both missing and bad, an unreadable one an error, and otherwise the bad entries are those of the manifest; missing are exactly the absent mandatory files, each once. |
| BundleCheck.TamperingIsNamed | ops_agent/cli.py:457-499 | With the manifest of a published bundle left alone, be it complete, partial or failed, the bad files are exactly the inventoried ones changed or deleted since, and the missing ones exactly the absent mandatory files. |
| BundleCheck.CleanIffIntact | ops_agent/cli.py:490-519 | Validation finds nothing if and only if every published file is as it was and no mandatory one is missing; added files go unnoticed. |
| BundleCheck.PublishedValidates | ops_agent/cli.py:490-519 | A published bundle validates clean if and only if no mandatory file was missing, and always if it says complete. |
| Utf16.EncodeAppend | bot/alerts.py:1583-1584 | The UTF-16 units of two texts in a row are the units of each in a row. |
| Utf16.OneCharacter | bot/alerts.py:1583-1584 | A character below 0x10000 is its own unit; any other is a high surrogate followed by a low one that carry its value. |
| Utf16.EncodedBack | bot/alerts.py:1583-1584 | Decoding by section 2.2 of RFC 2781 gives every text back from its units. |
| Utf16.LengthCounts | bot/alerts.py:1583-1584 | The length is the number of characters plus that of those at or above 0x10000. |
| Utf16.CoversReads | bot/alerts.py:5127-5155 | An entity covers a text if and only if its units lie in the message and decode to that text. |
| Utf16.CoversShifted | bot/alerts.py:1984-1994 | Text put before a section moves what an entity covers by exactly its UTF-16 length. |
| Utf16.PrefixOfLength | bot/alerts.py:5127-5137 | The one non-empty prefix of exactly that many units if there is one, else nothing (a surrogate pair is not cut). |
| Utf16.PreserveLeading | bot/alerts.py:5140-5155 | Entities survive sanitising exactly when there are some and each is a leading one whose text still leads. |
| Utf16.PreservedCover | bot/alerts.py:5140-5155 | A surviving entity covers in the sanitised text what it covered before. |
| Message.FormatEvent | bot/alerts.py:1616-1666 | The loop with its running cursor computes the plain section, the HTML section and the link entities of the items shown; with none shown, the empty text and its escape. |
| Message.FormatHeartbeat | bot/alerts.py:1669-1701 | The heartbeat's section has the same lines in both renderings, and no HTML when nothing is shown. |
| Message.ShownExactly | bot/alerts.py:1616-1666 | Shown are, of the first three items, those with a text, in order; linked are those of them with an address. |
| Message.HtmlGrows | bot/alerts.py:1640-1666 | Each line of the HTML section is a bullet and the escaped text, inside a link to the item's own address if it has one, joined by newlines; the parts between read back as text and address and cannot end tag or attribute. |
| Message.LinksCover | bot/alerts.py:1616-1666 | Each link entity covers exactly the UTF-16 units of its own link text, with its own address; entities come in order without overlap. |
| Message.MessageEntities | bot/alerts.py:1982-1994 | The message's entities: the icon's, then the links moved by the units before the section. |
| Message.MessageLinks | bot/alerts.py:1962-1994 | In the whole message every link still covers its own text, the icon entity its icon, all in order without overlap. |
| Message.EscapedShows | bot/alerts.py:1616-1666 | Escaped text, decoded left to right, shows as the text itself, and leaves what follows alone. |
| Message.TagShows | bot/alerts.py:1650-1650 | A tag shows nothing whatever escaped address it carries. |
| Message.SectionsAgree | bot/alerts.py:1616-1701 | For every news list, the HTML section with tags stripped and references decoded is the plain section; an address in a link decodes to itself and cannot end its attribute. |
| Prices.ValidateText | bot/alerts.py:4388-4429 | The left-to-right search accepts a text exactly when every dollar quote in it, other than a scaled sum, is within half a unit of its last place of an observed price. |
| Prices.Validate | bot/alerts.py:4417-4429 | The same over all fields. |
| Prices.QuoteExactly | bot/alerts.py:4388-4418 | What the search reads at a place is exactly what stands there: dollar sign, spaces, digits and commas as far as they go, and a point with digits if digits follow it. |
| Prices.ScaledIff | bot/alerts.py:4417-4422 | A quote counts as a scaled sum if and only if, after spaces and within sixteen characters, billion, million, trillion or bn follows in any case as a whole word. |
| Prices.WholeQuote | bot/alerts.py:4388-4429 | Prose that quotes one whole number, such as $60,000 with or without a space, is accepted if and only if a scale word follows or the number is within half a unit of an observed price. |
| Prices.GroupedForm | bot/alerts.py:1240-1241 | In a printed number a comma stands exactly where a multiple of three digits follows, and no zero leads. |
| Prices.GroupedIsNumber | bot/alerts.py:1240-1241 | Digits grouped with commas, commas removed, read back as the number. |
| Prices.PrintedQuote | bot/alerts.py:4388-4415 | A printed price with any digits `e` behind it is read back whole, with cents and `e` for decimals. |
| Prices.PrintedNear | bot/alerts.py:4426-4429 | What is read back is within half a cent of the price printed. |
| Prices.CentsNearest | bot/alerts.py:1240-1241 | The printed cents are the nearest number of cents, and of two the even one. |
| Prices.PrintedAccepted | bot/alerts.py:4388-4429 | Prose that quotes one printed observed price, no digit behind it, is accepted. |
| Prices.PrintedAcceptedIff | bot/alerts.py:4388-4429 | With any digits behind the print and no other quote, the prose is accepted if and only if the quote is a scaled sum or near an observed price. |
| Prices.PrintedNearIff | bot/alerts.py:4426-4429 | That quote is near a price if and only if the printed cents followed by those digits are within half a unit of their last place of it. |
| Prices.DigitsBehind | bot/alerts.py:4388-4429 | Where a whole number of cents is the only price observed, digits behind its print are accepted if and only if they are all zero (or a scale word follows). |
| Sampling.PositionsExactly | bot/alerts.py:1082-1086 | Collecting rounded positions in a set, adding the last, sorting and cutting gives just the rounded positions. |
| Sampling.SelectsEvenly | bot/alerts.py:1075-1086 | With more points than `limit` (at least 2): exactly `limit` positions, strictly increasing, first and last included, every step within one of the ideal spacing, under round-half-to-even. |
| Sampling.SelectKeepsEnds | bot/alerts.py:1075-1086 | The kept snapshots are those positions, so both ends of the series are kept. |
| Sampling.SelectShort | bot/alerts.py:1075-1080 | A series no longer than the limit is kept whole; of a longer one a limit of one or none keeps the last. |
| Sampling.NearestPositions | bot/alerts.py:1082-1086 | Each position is the integer nearest to the even spacing, and of two the even one. |
| Clustering.Cluster | ops_agent/alert_similarity.py:684-701 | The nested loops put every eligible row in the earliest cluster whose head has its symbol and a Jaccard similarity of at least 0.45, in input order. |
| Clustering.Partition | ops_agent/alert_similarity.py:684-701 | No row is in two clusters or twice in one, and only eligible rows are in any. |
| Clustering.HeadsDissimilar | ops_agent/alert_similarity.py:117-120 | No two heads of one symbol reach the threshold. |
| Clustering.ClusterMeans | ops_agent/alert_similarity.py:684-701 | In the rows' own fields: a member has terms, an event or analysis and its head's coin, a Jaccard similarity of at least 0.45 with its head and less with every earlier head of the coin, and every such row is in a cluster. |
| Reports.RunKeepsInv | bot/reports.py:201-294 | Every interleaving of command and scheduled callers, generations, cancellations and clock ticks keeps lock, in-flight generation, delays and cache in agreement. |
| Reports.OneInFlight | bot/reports.py:279-279 | At most one generation is in flight, and its caller holds the lock. |
| Reports.LockNotLeft | bot/reports.py:279-279 | In every run the lock is free when no caller is between taking it and leaving, cancelled callers included. |
| Reports.OneSuccessPerPeriod | bot/reports.py:262-294 | After a success no command caller starts another generation before the report expires; a scheduled refresh at most the grace earlier. |
| Reports.LastWhileItLasts | bot/reports.py:262-294 | However many command callers wait on an empty cache, they cause exactly one generation if it succeeds, until its report expires. |
| Reports.DelaysRespected | bot/reports.py:132-146 | No generation starts during the backoff its predecessor left (300 seconds after a rate limit, an hour after a scheduled failure), and a failed upgrade is not repeated within the hour. |
| Reports.CommandGetsReport | bot/reports.py:279-294 | A command caller that sees an unexpired completed report gets a completed one back. |
| Reports.FreshNotEvicted | bot/reports.py:646-650 | No step replaces an unexpired report except a completed generation: a failed attempt never evicts it. |
| Reports.ScheduledServedIff | bot/reports.py:212-234 | For a scheduled refresh that sees an unexpired report under the lock the same holds if and only if the report outlives the grace; otherwise there is a run in which it gets nothing or a failure. |
| Reports.StartsIff | bot/reports.py:262-294 | With nobody in the lock a caller starts a generation exactly when no backoff runs and, on a command, no unexpired completed report is there or it is outdated and past its retry delay, on schedule none that lasts 1800 seconds longer; otherwise it is answered at once with that report or nothing. |
| Reports.GenerationLeaves | bot/reports.py:279-294 | What a generation leaves: completed, it is cached and returned for a period from its start; failed, it is cached only without a database and a usable report, backs off for 3600 seconds on schedule and 300 after a rate limit, and after a failed upgrade the caller keeps the report it had for 3600 seconds. |
| Reports.Cache.IsBackoffActive | bot/reports.py:132-139 | Says whether the backoff runs, drops an expired entry, and touches no other report type. |
| Reports.Cache.GetFresh | bot/reports.py:589-600 | The cached report if completed and unexpired. |
| Reports.Cache.Remember | bot/reports.py:603-651 | Leaves in the one type's cache what the transition system leaves, and touches no other type. |
| Reports.Cache.EndGeneration | bot/reports.py:229-239 | The end of a generation leaves in the one type's cache and backoff what the transition system leaves, for any caller, success, failure or rate limit, and touches no other type. |

## Left out

- Attachment.OneAnalysisPerEvent: decisions without an event key have no market event and are not part of it.
- Recipients without a user id, and running without a database: such sends have no lock, no recheck and no row.
- DeliverySafety.StrictCooldown: speaks of recorded sends; a crash between Telegram's acknowledgement and the write leaves an unrecorded one (`AcknowledgedOnce` covers it). Events with an empty key are not rechecked by the code and are not covered.
- DeliverySafety.HeartbeatSilence: measures from `sent_at`, which the code also requires; rows marked sent without a `sent_at` are not counted.
- DeliverySafety.EligibleExactly: a heartbeat recheck also drops a user who lost the coin or changed chat (bot/alerts.py:5970-5971); in the model such a worker simply stops.
- Telegram.Bot.SendWithRetry: a timeout of a legacy HTML or plain request may be retried, so only acknowledgements are at most one there; sleeps are recorded, the protocol does not force time to pass during them.
- The retry count stored with a delivery, which classifies the message string and not the exception, is not kept equal to the attempts.
- EndToEnd.AuditCleanIff: references are injective (HMAC), and members exported with a time outside recheck and record are not evidence; a row taken over from an earlier failed delivery keeps its old `created_at`, which the collector exports.
- EndToEnd.Evidence: the export takes the latest family of an event's alerts; the model lets any check of the event give it, so clean is clean for every choice, and the run that fails uses the latest. Checks from before the run give no label.
- ServedEvents.ServedCleanIff: word lists, text normalisation of keys, lower-casing, stripping and coin aliases are parameters (`Policy`, `Wording`); what is used of them is `Plausible`. Imported events whose stored key does not begin with the coin are covered by `AuditCleanIff` alone.
- ServedEvents.ReuseCleanIff: `ExactReuse` asks that the words of the stored key add no family to those of title and body; where they do, `ServedCleanIff` decides.
- DeliveryOutcomes.OneOutcomePerWorker: heartbeats write no recipient rows; a worker that crashes may leave none. Events without a key are not rechecked, and their plain cooldown is the preflight's (`FilterDecides`).
- Recipients.EveryUserOnce: speaks of a fan-out whose workers have all ended; a dispatch that dies under way leaves the later recipients without a row.
- The six-hour gate of retired non-Event callers in recipient resolution, bot/alerts.py:2251-2274, is switched off for the callers modelled.
- `_event_alert_for_recipient` changes the text without moving entities, so the entity statements are about the payload as built.
- Title, source and address cleaning, relevance checks and prose rewriting: an item enters `Message` already cleaned.
- Prices.PrintedNear: prices are exact; a float's shortest decimal text, which the validator reads, can differ from the float printed in the last bit.
- Sampling.SelectsEvenly: quotients are exact; a double's error is far from a tie for any real series length.
- Clustering.Cluster: the summaries, references and sorted output built from the clusters.
- BundleWriter.Writer.Enforce: the minimality clause asks for a first call and for manifests that grow with their warnings; a later call may drop more than needed while the earlier warning is in force.
- BundleWriter.Writer.Finalize: with mandatory files missing and the status failed already, statuses and warnings are appended after the last size check, so the cap is not promised; a bundle published as failed may exceed it.
- BundleWriter.Writer.Conclude: the manifest's timestamp, bundle id, period and version are constants; `isoformat()` omits zero microseconds, so the real width can vary by seven bytes. `finalize(publish_manifest=True)`, protected files and permissions are not modelled.
- BundleWriter.Writer.ManifestPayload: paths are ordered as text; Python orders them part by part, which changes the order of inventory entries and nothing stated here.
- BundleCheck.TamperingIsNamed: SHA-256 is injective and paths name files of the bundle directly; symbolic links and paths that lead outside it are not modelled.
- Reports: one report type and one process; a completed report always has a text; the per-chat rate limit, the recovery job and rendering are not modelled.
- LLM calls, news and price fetching, prompts, charts, regular-expression checks of direction, causality and percentages, log redaction, SQL, Telegram handlers, onboarding, payments, configuration and retention.
