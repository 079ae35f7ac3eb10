# Toolkit bot: vote-party monitor, suggestion report and owner notifiers

A Dafny model of three parts of a Discord "toolkit" bot, with proofs of
what they promise.

- **Vote-party monitor** (`bot/utils/votePartyMonitor.js`). One tick reads the
  global voting statistics and loads every guild's config file. It then alerts
  each guild whose `vote_party_amount` the "votes needed" counter has just
  crossed from above. The crossing is judged against ONE process-wide
  `lastVotesNeeded` tracker. Only a tick that finishes its guild loop updates
  that tracker, and the model keeps it the same way (`VotePartyMonitor`,
  `VotePartyRuns`).
- **Suggestion report** (`bot/components/slashcommands/suggestionreport.js`):
  - `fetchAllMessages` pages backwards through a channel, 100 messages at a
    time, up to a cap (`MessageFetch`);
  - `extractSuggestions` turns Carl-bot's embeds into rows (`SuggestionRows`);
  - `toCsvBuffer` writes the rows as CSV (`SuggestionCsv`). The writer's
    partner is an independent reader for the quoted-field format of RFC 4180,
    section 2. The report reads back as the header plus every row's fields.
- **Owner notifiers** (`bot/utils/notifyOwner.js`): `notifyOwnerOfError` and
  `notifyOwnerIfAdmin` DM the guild owner at most once every five days. Each
  keeps a per-guild JSON state file (`NotifyOwner`).

Shared helpers:

- `JsValues`: `Option`, JavaScript numbers as finite or not, truthiness and `||`.
- `Text`: decimal rendering and parsing, `join`, prefixes and substrings.
- `Seqs`: the filter-then-map shape that both loaders share.

The outside world enters as parameters:

- the voting statistics, already fetched and converted by `Number(...)`;
- the guilds directory, as a list of already-parsed entries;
- the notify directory, as a map from file name to contents;
- the clock, as `now` in milliseconds;
- the Discord calls (guild, channel and user lookups, `send`,
  `messages.fetch`), as oracle functions.

## Model

| member | source | states |
|---|---|---|
| VotePartyMonitor.ParseEntry | bot/utils/votePartyMonitor.js:22-35 | A directory entry is kept exactly when its name ends in `.json` and it parsed. Its guild id is the name with `.json` removed, and the parsed config is kept as is. |
| VotePartyMonitor.LoadAllGuildConfigs | bot/utils/votePartyMonitor.js:19-37 | A missing guilds directory yields no configs. Otherwise there are never more configs than files. |
| VotePartyMonitor.LoadAllGuildConfigsKeepsParsedJsonInOrder | bot/utils/votePartyMonitor.js:19-37 | The loaded configs are exactly the `.json` files that parsed, in listing order, each under its file name without `.json`. A JSON `null` document is kept too. |
| VotePartyMonitor.InactiveConfigIsSkipped | bot/utils/votePartyMonitor.js:69-80 | A guild is skipped as inactive exactly when its channel id is not truthy or its amount is missing, not finite or not positive, whatever the statistics, the tracker and the platform. |
| VotePartyMonitor.DecideFiresIffCrossed | bot/utils/votePartyMonitor.js:82-93 | A guild is selected exactly when it takes part, votes needed is at or under its threshold, and the tracker is unset or was above the threshold. |
| VotePartyMonitor.AlertText | bot/utils/votePartyMonitor.js:107-112 | The alert starts with `<@&role> ` when a role is configured, and otherwise with "Vote Party is getting close!". |
| VotePartyMonitor.AlertTextMentionsRoleAndNumbers | bot/utils/votePartyMonitor.js:107-112 | The alert opens with `<` exactly when a role is configured. It quotes the votes needed, the votes required and the guild's threshold, each in bold. |
| VotePartyMonitor.ProcessGuild | bot/utils/votePartyMonitor.js:69-119 | A guild is alerted exactly when it is selected, the guild resolves and the channel is text-based. The alert goes to the configured channel with the alert text. A failed send is only recorded. |
| VotePartyMonitor.ProcessAll | bot/utils/votePartyMonitor.js:64-120 | The k-th report is the k-th loaded guild's outcome. A `null` config stops the loop right there, after the guilds before it. |
| VotePartyMonitor.CheckVoteParty | bot/utils/votePartyMonitor.js:44-124 | A failed fetch, non-numeric statistics or an empty config list ends the tick with no reports and the tracker untouched. An aborted loop also leaves the tracker untouched. Past those exits, the tick completes exactly when every loaded config is an object (not `null`), and then it reports every guild and sets the tracker to this tick's votes needed, whether or not the sends succeeded. |
| VotePartyMonitor.TickReportsArePerGuild | bot/utils/votePartyMonitor.js:64-120 | Each guild's report depends only on its own config, the shared statistics and the tracker. What happens to one guild never affects another. |
| VotePartyRuns.TrackerIsLatestCompletedObservation | bot/utils/votePartyMonitor.js:44-124 | Across ticks, the tracker is the votes-needed value of the latest tick that completed, or the start value when none has. |
| VotePartyRuns.NoRefireUntilRearmed | bot/utils/votePartyMonitor.js:82-93 | Once the tracker is at or under a threshold, no config with that threshold fires again until a completed tick has observed a value above it. |
| VotePartyRuns.FiresOnlyAfterObservingAbove | bot/utils/votePartyMonitor.js:86-93 | A config fires only if the latest completed tick before it observed a value above its threshold. |
| VotePartyRuns.FailedSendIsNotRetried | bot/utils/votePartyMonitor.js:114-123 | A completed tick that selected a guild stops the next tick from selecting it again, even when the send failed. |
| VotePartyRuns.CrossingTwiceAlertsTwice | bot/utils/votePartyMonitor.js:82-93 | With threshold 10 and readings 15, 9, 12, 8, the guild is alerted on the second and fourth ticks only. |
| VotePartyRuns.StayingUnderDoesNotRealert | bot/utils/votePartyMonitor.js:84-92 | Readings 8 then 7 under threshold 10 give no second alert. |
| VotePartyRuns.NullConfigRepeatsAlert | bot/utils/votePartyMonitor.js:64-123 | A `null` config after an alerted guild aborts the tick before the tracker moves, so an identical next tick alerts that guild again. |
| Text.IntToStringRoundTrip | bot/utils/votePartyMonitor.js:109-111 | The decimal rendering of every integer is a well-formed literal that parses back to the same integer. |
| MessageFetch.FetchAllMessages | bot/components/slashcommands/suggestionreport.js:75-89 | The result is the concatenation of the batches of a run the channel allows. It is empty when the first request yields nothing. With pages of at most 100 messages, it holds at most max(cap, 1) + 99 messages. |
| MessageFetch.ValidRunIsUnique | bot/components/slashcommands/suggestionreport.js:75-89 | The channel and the cap determine the run: each request's cursor is the last id received, and each stop condition is checked as in the loop. |
| MessageFetch.RunStaysNearCap | bot/components/slashcommands/suggestionreport.js:79-87 | The cap is checked only after a full page, so a run overshoots it by less than one page. |
| MessageFetch.DefaultCapRunIsBounded | bot/components/slashcommands/suggestionreport.js:12 | With the default cap of 5000, and every page holding at most 100 messages, a report reads at most 5099 messages. |
| SuggestionRows.TitleNumberIsFirstHashDigitRun | bot/components/slashcommands/suggestionreport.js:99-101 | The number is empty exactly when no `#` is followed by a digit. Otherwise it is the whole digit run after the first `#` that is followed by a digit. |
| SuggestionRows.FlattenKeepsTextWithoutLineFeeds | bot/components/slashcommands/suggestionreport.js:106 | Text without a line feed is unchanged by the newline replacement. |
| SuggestionRows.FlattenLeadingRun | bot/components/slashcommands/suggestionreport.js:106 | A run of one or more line feeds, with or without a carriage return before it, becomes exactly one space. |
| SuggestionRows.FlattenCopiesOrdinaryChar | bot/components/slashcommands/suggestionreport.js:106 | Every other character is copied, including a carriage return that no line feed follows. |
| SuggestionRows.TrimRemovesOnlyOuterSpace | bot/components/slashcommands/suggestionreport.js:107 | The trimmed text is a slice of the input, and everything cut off on either side is JavaScript white space. |
| SuggestionRows.Trim | bot/components/slashcommands/suggestionreport.js:107 | The result neither starts nor ends with white space and holds only characters of the input. |
| SuggestionRows.Description | bot/components/slashcommands/suggestionreport.js:105-107 | The description cell never holds a line feed. |
| SuggestionRows.VotesCountFirstMatch | bot/components/slashcommands/suggestionreport.js:109-113 | The count is max(count - 1, 0) of the first reaction whose emoji name includes the arrow, with a missing count read as 0. It is 0 when no reaction matches. |
| SuggestionRows.RowOf | bot/components/slashcommands/suggestionreport.js:94-117 | A message yields a row exactly when Carl-bot wrote it and it has an embed. The row's description has no line feed and its number is all digits. |
| SuggestionRows.ExtractSuggestionsKeepsCarlBotEmbedsInOrder | bot/components/slashcommands/suggestionreport.js:91-121 | The rows come from exactly the Carl-bot messages with an embed, in message order, one row per message. |
| SuggestionRows.ExtractedRowsAreClean | bot/components/slashcommands/suggestionreport.js:99-107 | Every extracted row has a description without line feeds and a number made only of digits. |
| SuggestionCsv.Esc | bot/components/slashcommands/suggestionreport.js:126-129 | An escaped value is wrapped in double quotes. A value without quotes is otherwise unchanged. |
| SuggestionCsv.EscapedFieldReadsBack | bot/components/slashcommands/suggestionreport.js:126-129 | A CSV reader recovers every escaped value exactly, whatever commas, quotes or line breaks it holds. |
| SuggestionCsv.ParseQuotedOfDoubled | bot/components/slashcommands/suggestionreport.js:128 | Reading a quoted field undoes the quote doubling. |
| SuggestionCsv.RecordReadsBack | bot/components/slashcommands/suggestionreport.js:131-135 | A record written as comma-joined fields reads back as the same fields, for the unquoted header and for quoted rows alike. |
| SuggestionCsv.FieldsReadBack | bot/components/slashcommands/suggestionreport.js:134 | The author, number, description and date come back unchanged, and each vote count comes back as a decimal numeral of its value. |
| SuggestionCsv.ToCsv | bot/components/slashcommands/suggestionreport.js:123-138 | The report starts with the header line. It is exactly the header line when there are no rows, and a line feed follows the header otherwise. |
| SuggestionCsv.ReportLinesReadBack | bot/components/slashcommands/suggestionreport.js:123-138 | Any header whose fields need no quoting, written unquoted and followed by the quoted rows, reads back as the header record and then each row's six fields, in row order. |
| SuggestionCsv.ToCsvReadsBack | bot/components/slashcommands/suggestionreport.js:123-138 | The report parses into one more record than there are rows: the header, then each row as it was written. |
| NotifyOwner.PersistThenLoad | bot/utils/notifyOwner.js:12-17 | A file written after a delivery reads back as the state written, when it is missing, unparsable or an object. A number, string, boolean or array file reads as it did before. Every other file is untouched. |
| NotifyOwner.ErrorLines | bot/utils/notifyOwner.js:32-42 | The error DM has at least four lines. It opens with the siren header naming the guild and ends with the floor-of-seconds time line. |
| NotifyOwner.ErrorLinesFollowContext | bot/utils/notifyOwner.js:33-42 | A Member line and a Role ID line appear exactly when those context fields are truthy. The Step line is always third. |
| NotifyOwner.ErrorBody | bot/utils/notifyOwner.js:32-42 | The DM text starts with the header. |
| NotifyOwner.AdminBody | bot/utils/notifyOwner.js:105-122 | The admin DM opens with a greeting line naming the bot and the guild. |
| NotifyOwner.NotifyOwnerOfError | bot/utils/notifyOwner.js:8-52 | See the list below the table. |
| NotifyOwner.NotifyOwnerIfAdmin | bot/utils/notifyOwner.js:57-136 | See the list below the table. |
| NotifyOwner.ErrorCooldownAfterDelivery | bot/utils/notifyOwner.js:19-47 | After a delivered error DM whose stamp was kept, every error notification for that guild within five days is suppressed. |
| NotifyOwner.ErrorGateReopens | bot/utils/notifyOwner.js:19-47 | Five days after a delivered error DM, the next one goes out exactly when the owner can be fetched and the send succeeds. |
| NotifyOwner.AdminCooldownAfterDelivery | bot/utils/notifyOwner.js:69-131 | After a delivered admin DM whose stamp was kept, the admin notifier stays silent for that guild for five days. |
| NotifyOwner.AdminDeliveryIsRecorded | bot/utils/notifyOwner.js:124-131 | A delivered admin DM records the time, guild id and name, owner id, and owner tag, falling back to the username. |
| NotifyOwner.NonObjectStateNeverCoolsDown | bot/utils/notifyOwner.js:13-47 | A state file holding a non-object JSON value never keeps a stamp, so the next error notification is never suppressed. |
| NotifyOwner.NonObjectAdminStateNeverCoolsDown | bot/utils/notifyOwner.js:63-131 | The same holds for the admin notifier. |
| NotifyOwner.InfiniteStampSuppressesForever | bot/utils/notifyOwner.js:13-21 | A state file whose `lastNotified` is +Infinity (for instance `1e400`) suppresses the error DM at every time, and nothing is written. |
| NotifyOwner.InfiniteAdminStampSuppressesForever | bot/utils/notifyOwner.js:63-71 | A +Infinity admin stamp suppresses the admin DM at every time, and nothing is written. |
| NotifyOwner.MissingStateOpensGate | bot/utils/notifyOwner.js:13-21 | With no state file, or an unparsable one, the gate is closed only before five days after the epoch. |
| NotifyOwner.StateFilesAreDistinct | bot/utils/notifyOwner.js:61-62 | The error and admin state files never share a name while guild ids are numeric. |
| NotifyOwner.StateFilesMeetForNonNumericIds | bot/utils/notifyOwner.js:61-62 | A guild id `admin-1` would make the two names meet. |
| NotifyOwner.StateFilesArePerGuild | bot/utils/notifyOwner.js:12 | Distinct guild ids have distinct state files, for either notifier, when ids are numeric snowflakes. |
| NotifyOwner.AdminDmLeavesErrorGate | bot/utils/notifyOwner.js:61-62 | An admin notification never changes how a later error notification ends, for guilds with numeric ids. |
| NotifyOwner.ErrorDmLeavesAdminGate | bot/utils/notifyOwner.js:61-62 | An error notification for a guild with a numeric id never changes how a later admin notification ends. |
| NotifyOwner.ErrorDmIsPerGuild | bot/utils/notifyOwner.js:12 | An error notification for one guild never changes how one for another guild ends, when ids are numeric snowflakes. |

`NotifyOwner.NotifyOwnerOfError` states:

- The store changes only on delivery.
- A `null` state file ends the call.
- The call is suppressed exactly inside the five-day window, or when the
  stamp is +Infinity.
- The DM is delivered exactly when the owner is fetched and the send succeeds.
- A delivered DM goes to the owner and is the error report. The state it
  loaded is persisted with `lastNotified` set to now, when the file can
  keep the stamp.

`NotifyOwner.NotifyOwnerIfAdmin` states:

- The store changes only on delivery.
- The call is suppressed exactly inside the window, or when the stamp is
  +Infinity.
- The DM is sent exactly when every condition holds: the call is not
  suppressed, the bot member resolves and has Administrator, the owner id is
  truthy and the owner is fetched.
- The DM is delivered exactly when, in addition, the send succeeds.
- A delivered DM persists the admin record, when the file can keep it.

## Left out

- VotePartyMonitor.ActiveThreshold: numbers are integers where the source has JavaScript Numbers, so a fractional `vote_party_amount` or fractional statistics are not modelled.
- VotePartyMonitor.CheckVoteParty: the HTTP request, its 5-second timeout and `Number(...)` conversion happen before the model; it receives the converted statistics or None.
- MessageFetch.FetchAllMessages: the cap is an integer, so a non-numeric `SUGGESTION_FETCH_CAP` (NaN, which makes `all.length >= cap` always false and lets only a short or empty batch stop the loop) is not modelled.
- NotifyOwner.NotifyOwnerOfError: a failing `fs.writeFileSync` after a successful send is caught by the same handler (`notifyOwner.js` lines 44-51); the stamp is then lost and the next call DMs again, while the model always writes on delivery.
- NotifyOwner.NotifyOwnerIfAdmin: the same for the write at lines 124-135.
- NotifyOwner.CoolingDown: a fractional `lastNotified` read from a state file is not modelled; a stamp is an integer, NaN or an infinity.
- NotifyOwner.ErrorCooldownAfterDelivery: holds only when the state file can keep the stamp; `NonObjectStateNeverCoolsDown` states the other case.
- NotifyOwner.AdminCooldownAfterDelivery: the same restriction; `NonObjectAdminStateNeverCoolsDown` states the other case.
- NotifyOwner.StateFilesAreDistinct: assumes numeric (snowflake) guild ids; `StateFilesMeetForNonNumericIds` shows the names can meet otherwise.
- NotifyOwner.AdminDmLeavesErrorGate: the same numeric-id assumption, for the admin guild's id as well: the model joins file names without `path.join` normalisation, so an admin id such as `/../1` would name the error file of guild `1` in the source but not in the model.
- NotifyOwner.ErrorDmLeavesAdminGate: the same numeric-id assumption.
- NotifyOwner.StateFilesArePerGuild: file names are plain concatenations; `path.join` (`notifyOwner.js` lines 12 and 62) also normalises the path, so ids such as `1`, `./1` and `x/../1` name one file in the source. The lemma's promise carries over to the source only for numeric snowflake ids.
- NotifyOwner.ErrorDmIsPerGuild: the same `path.join` normalisation gap; the promise carries over only for numeric snowflake ids.
- SuggestionRows.Trim: strings are sequences of Unicode characters, not UTF-16 code units; white space and the regular expressions are matched per character.
- SuggestionRows.FlattenNewlines: the same character model.
- Concurrency: overlapping interval ticks (a tick slower than a minute) and concurrent notifier calls are not modelled; ticks and calls run one after another.
- The `setInterval` timer of `startVotePartyMonitor` is modelled only as a sequence of ticks; console logging is left out everywhere.
- `fs.existsSync`/`mkdirSync` of the notify directory: assumed to succeed.
- `JSON.stringify(state, null, 2)` formatting: only the stored value is modelled, not its text.
- A `null` or `undefined` error, or a `null` context, passed to `notifyOwnerOfError` (reading their fields would throw): the model takes an error value and a context record. An omitted context is the default `{}`, which the model covers as a context with every field absent.
- Message values of other types than strings (a numeric embed title, a non-string description) and a message without a `reactions` collection: messages are typed records.
- `createdAt.toISOString()`: the date arrives already rendered.
- `Buffer.from(..., 'utf8')`: the model stops at the report text.
- The `execute` slash-command handler (`suggestionreport.js` lines 27-73: channel resolution, permission checks, replies, the attachment name) and the command builder (lines 14-25): Discord interaction plumbing.
- `listGuildOwners.js`: a stand-alone script, not part of this model.
