# harley-bot core, modelled in Dafny

harley-bot is a Discord moderation and logging bot. This project models
the core of that bot, the part that decides what happens when an event or
command arrives:

- **The bot object** (`Bot`). It holds:
  - a per-guild configuration cache, with a default entry for guilds that are not configured;
  - the blacklist and the registered cogs and checks.

  It covers prefix lookup, cache loading and refresh, cog registration and
  removal with aliases, and the yes/no confirmation prompt.
- **Converters** (`Converters`):
  - the hierarchy-checked member converter;
  - the `1h30m`-style time converter, with its regular expression written as a scanner;
  - the logging-option converter and the attachment converter.
- **Flag enums** (`Enums`). These are the power-of-two logging and automod flags:
  - membership as a bit test;
  - iteration over the set members;
  - the `bin()`/`int(s, 2)` round trip through which options are stored.
- **Helpers** (`Utils`, `Logging`):
  - `get_enum`, `title_format` and `get_audit`;
  - the gate shared by every logging listener. The gate checks audit-log
    permission, config, the `NONE` option, the category bit and that the
    log channel exists.
- **Logging listeners** (`Channels`, `Messages`):
  - channel delete, create and update;
  - message delete, edit and bulk delete.

  They are modelled as functions from the event and the cache to the log
  message that would be posted.
- **Moderator cog** (`Mutes`, `Moderator`):
  - `mute`, `unmute` and the timed `perform_unmute`;
  - the periodic `mute_pull` sweep that arms unmute timers for mutes due
    within the poll period.

  `Mutes` states every transition as a function on an explicit state. That
  state is the mutes table, the role holdings, the armed timers, the queue
  of record ids, the next row id and whether the poll loop still runs.
  `Moderator.ModeratorCog` is a class whose methods update those fields and
  are proved equal to the functions.
- **Other commands and handlers**:
  - settings converters, `log_options`, and the permission overwrite of `set_mute` (`Settings`);
  - the blacklist check (`Checks`);
  - the error handler (`ErrorHandler`);
  - owner commands `reload_all`, `blacklist`, `unblacklist` and `delete` (`Owner`);
  - `uptime` and `invite` (`Meta`);
  - the help command's filtering, pages and fields (`Help`).

Everything outside the process is a parameter: the database, Discord, the
clock and the configuration. This covers:

- query results, and whether the blacklist insert or delete succeeded;
- members, roles and audit-log entries the bot can see;
- which extensions fail to reload;
- the current time, as `real` seconds.

Rows and cache entries are maps from column names to values, so a
misspelt key is a `KeyError` the model can see.

## Model

| member | source | states |
|---|---|---|
| Bot.HarleyBot.constructor | utils/subclasses.py:46-83 | a new bot caches only the default entry holding the configured prefix; blacklist, cogs and checks start empty |
| Bot.HarleyBot.AsyncInit | utils/subclasses.py:88-108 | the cache gains one entry per config row on top of the old cache, and the blacklist gains one entry per blacklist row; cogs and checks are untouched |
| Bot.LoadedEntries | utils/subclasses.py:88-108 | after loading, the default entry is kept, every configured guild has an entry, and a guild with no row keeps whatever it had |
| Bot.HarleyBot.RefreshCacheFor | utils/subclasses.py:115-119 | a missing row raises TypeError and leaves the cache alone; otherwise exactly that guild's entry is replaced by the row's dict |
| Records.ConfigDict | utils/subclasses.py:115-119 | a config row becomes a dict with exactly the keys id, prefix, logid, muteid and options |
| Bot.HarleyBot.AddCog | utils/subclasses.py:125-130 | the cog is registered under its lower-cased name and under every lower-cased alias |
| Bot.HarleyBot.RemoveCog | utils/subclasses.py:132-140 | an unknown name changes nothing; a known one removes the name and exactly the lower-cased aliases of the cog found, passing over aliases no longer present, and never raises |
| Bot.WithKeysAt | utils/subclasses.py:125-130 | after registration a key is present iff it was before or it is a lower-cased alias; alias keys map to the cog and other keys keep their old cog |
| Bot.WithoutKeysRemoves | utils/subclasses.py:138-140 | popping the aliases removes exactly their lower-cased forms, present or not |
| Bot.AddThenRemoveRestores | utils/subclasses.py:125-140 | adding a cog whose name and aliases are fresh keys and then removing it by name restores the registry |
| Bot.HarleyBot.AddCheck | cogs/checks.py:8 | a check registered with `add_check` is appended to the bot's check list |
| Bot.GetPrefix | utils/subclasses.py:24-36 | AttributeError iff the message has no guild (a direct message) or neither the guild nor the default entry is cached; otherwise it uses the guild's entry or the default: a string prefix is returned, an absent or null prefix gives the configured prefix, and any other value raises TypeError |
| Bot.PrefixFallback | utils/subclasses.py:24-36 | with the default entry, an uncached guild and a guild with a null prefix both get the configured prefix |
| Bot.PrefixFromConfigRow | utils/subclasses.py:24-36 | after refreshing a guild from a row with a prefix, that prefix is what get_prefix returns |
| Bot.Confirm | utils/subclasses.py:197-225 | BadArgument iff neither embed nor text is given; otherwise the prompt is the embed if any, else the text, and the answer is yes iff the check-mark reaction was picked |
| Checks.BlacklistCheck | cogs/checks.py:10-13 | as written: passes iff the author has no blacklist reason; a blacklisted author gets a message whose reason reads `True` |
| Checks.BlacklistCheckIntended | cogs/checks.py:10-13 | passes iff the author has no blacklist reason; a blacklisted author gets a message carrying the stored reason |
| Checks.BlacklistMessageLosesReason | cogs/checks.py:11-12 | both versions pass the same authors, and the as-written message differs whenever the reason is not the text `True` |
| Checks.SpamShownAsTrue | cogs/checks.py:11-12 | an author blacklisted for `spam` is told the reason is `True` as written and `spam` when corrected |
| Checks.RegisterChecks | cogs/checks.py:6-8 | setup appends the blacklist check to the bot and changes nothing else |
| Converters.HierarchyMember | utils/CustomConverters.py:12-36 | returns the member iff one is found that is neither the guild owner nor the author and whose top role is below both the author's and the bot's; each refusal, checked in that order, has its own error |
| Converters.DigitRun | utils/CustomConverters.py:39 | a run of digits never passes the end of the text |
| Converters.MatchAt | utils/CustomConverters.py:39 | a match found at a position ends after it and within the text |
| Converters.MatchAtWellFormed | utils/CustomConverters.py:39 | every match has one to five digits, optionally a separator and one to five more digits, then a unit from `smhd` |
| Converters.FindAllWellFormed | utils/CustomConverters.py:39 | every match findall returns is well formed, so the time_dict lookup at line 49 cannot raise KeyError |
| Converters.DigitRunExact | utils/CustomConverters.py:39 | a digit run ends exactly at the first non-digit |
| Converters.NoDigitsNoMatches | utils/CustomConverters.py:39 | text without digits has no matches |
| Converters.FindAllShift | utils/CustomConverters.py:39 | matching is position independent: scanning x + y from a position inside y finds the same matches as scanning y alone |
| Converters.IgnoresLeadingText | utils/CustomConverters.py:39 | a digit-free prefix does not change the matches |
| Converters.SkipNonDigits | utils/CustomConverters.py:39 | scanning from any point inside a digit-free stretch finds the same matches |
| Converters.ConvertTime | utils/CustomConverters.py:43-56 | the converter returns exactly the time specification: now plus the sum of every match's value times its unit's seconds, OverflowError when that passes the end of year 9999, or the BadArgument of the first non-numeric quantity |
| Converters.AddDurations | utils/CustomConverters.py:46-56 | the accumulation loop gives now plus the total duration of the matches, or their first error |
| Converters.DurationAt | utils/CustomConverters.py:46-55 | the duration of the matches from i on is the duration from i + 1 plus match i's seconds, failing at the first bad quantity |
| Converters.TimeCaseInsensitive | utils/CustomConverters.py:45 | the argument is lower-cased first, so its case never matters |
| Converters.NoMatchIsNow | utils/CustomConverters.py:56 | an argument with no matches converts to the current time |
| Converters.HugeDurationOverflows | utils/CustomConverters.py:56 | `3000000d`, about 8,200 years, overflows from any moment after the epoch |
| Converters.TwoHours | utils/CustomConverters.py:39-56 | `2H` and `2h` both convert to now plus 7200 seconds |
| Converters.CommaRaises | utils/CustomConverters.py:54-55 | a comma separator matches but float() rejects it, so `1,5h` raises `1,5 is not a number!` |
| Converters.MemberNamed | utils/CustomConverters.py:59-63 | the lookup by name finds the option with that name, and finds nothing iff no option has it |
| Converters.ConvertOption | utils/CustomConverters.py:59-63 | succeeds iff the upper-cased argument names an option, returns that option, and otherwise raises BadArgument |
| Converters.ConvertAttachment | utils/CustomConverters.py:66-72 | returns the first attachment iff there is one; otherwise raises BadArgument |
| Enums.BitOfPow2 | utils/enums.py:18-24 | the only bit set in 2^i is bit i |
| Enums.LogValuesAreDistinctBits | utils/enums.py:18-24 | each logging option's value is a distinct power of two, and a flag equal to one option contains exactly that option |
| Enums.AutomodValuesAreDistinctBits | utils/enums.py:27-39 | each automod option's value is a distinct power of two |
| Enums.BitAddAt | utils/enums.py:13-15 | adding 2^k to a number without bit k sets bit k and leaves the other bits |
| Enums.BitSubAt | utils/enums.py:13-15 | subtracting 2^k from a number with bit k clears bit k and leaves the other bits |
| Enums.SumOfDistinct | cogs/settings.py:108 | the sum of distinct options contains exactly those options |
| Enums.RepeatedOptionCarries | cogs/settings.py:108 | a repeated option carries into the next bit: MESSAGE twice reads as CHANNELS and not as MESSAGE |
| Enums.NoneCombines | utils/enums.py:19-20 | NONE is a bit like the others and combines with them; the empty sum contains nothing |
| Enums.Iter | utils/enums.py:5-11 | iterating flag 0 yields "0"; any other flag yields one string per set bit, from the highest value down: the option's name for the six options, and the decimal value of the bit's unnamed pseudo-member above MODERATION; so an option's name appears iff the flag contains it, and a higher bit's value appears iff that bit is set |
| Enums.SetBits | utils/enums.py:8 | the bits a flag decomposes into: exactly its set bits, in strictly decreasing order |
| Enums.SingleExtraBit | utils/enums.py:8-11 | a flag that is a single bit above MODERATION iterates as that bit's value alone |
| Enums.RepeatedModerationIsExtraBit | cogs/settings.py:108 | MODERATION chosen twice stores bit 6, whose pseudo-member is named "64" |
| Enums.LogNameInjective | utils/enums.py:18-24 | distinct options have distinct names |
| Enums.BinaryDigitsRoundTrip | utils/enums.py:13-15 | the binary digits of n are non-empty, all 0 or 1, and read back as n |
| Enums.BinRoundTrip | utils/enums.py:13-15 | from_binary(bin(n)) is n for every n |
| Utils.GetEnum | utils/utils.py:24-28 | raises the guild's KeyError iff it is uncached; no options gives 0; a binary string gives its value; a null or unparsable value gives NONE |
| Utils.GetEnumReadsStoredOptions | utils/utils.py:24-28 | options stored as bin of a sum read back as that sum |
| Utils.GetEnumDefaults | utils/utils.py:26-28 | missing options contain nothing, so not NONE; null options read as NONE |
| Utils.TitleFromAt | utils/utils.py:33-35 | title-casing keeps the length and upper-cases exactly the letters that follow a non-letter |
| Utils.TitleFormatAt | utils/utils.py:33-35 | title_format keeps the length, replaces every `_` and `-` with a space, and capitalises each word |
| Utils.GetAudit | utils/utils.py:37-45 | as written: an entry is returned iff the fetch succeeded, found one, and the newest is created no later than three seconds after now; it is the newest |
| Utils.GetAuditAcceptsStaleEntry | utils/utils.py:41-42 | as written, an entry an hour old is accepted |
| Utils.GetAuditIntended | utils/utils.py:37-45 | an entry is returned iff the newest was created at most three seconds before now; it is the newest |
| Utils.GetAuditDiffersOnlyOutsideWindow | utils/utils.py:41-42 | both versions agree for entries within three seconds of now, and differ only for an older entry (accepted as written) or one more than 3 s in the future (accepted when corrected) |
| Logging.LogGate | cogs/listeners/messages.py:26-36 | raises KeyError iff audit access is allowed and the guild is uncached; open iff also the options hold the category and not NONE and the configured log channel exists, and then the channel is that config value |
| Logging.NoneStopsEveryLog | cogs/listeners/messages.py:29-31 | a guild whose stored options include NONE never logs any category |
| Logging.ChosenCategoriesAreLogged | cogs/listeners/messages.py:29-36 | with distinct stored options without NONE and an existing log channel, a category is logged iff it was chosen |
| Channels.FormatOverwrites | cogs/listeners/channels.py:14-25 | the nested loop builds exactly the concatenation of each overwrite's block |
| Channels.FormattedEmpty | cogs/listeners/channels.py:14-25 | no overwrites format to the empty string |
| Channels.FormattedSnoc | cogs/listeners/channels.py:14-25 | one more overwrite appends its block |
| Channels.FormattedAppend | cogs/listeners/channels.py:14-25 | formatting distributes over concatenation |
| Channels.BlockShape | cogs/listeners/channels.py:17-23 | each block starts with the target, a space and a newline, and ends with a blank line |
| Channels.DiffFieldsCount | cogs/listeners/channels.py:67-78 | one field per changed attribute except empty overwrite lists; without those, each attribute keeps its name as the field name |
| Channels.ChannelDeleteLog | cogs/listeners/channels.py:33-95 | a closed gate logs nothing and a raising gate crashes with its error; an open gate with no audit entry raises IndexError, and otherwise posts to the gate's channel a `Channel Deleted` log listing the channel info, the diff fields and the moderator |
| Channels.ChannelCreateLog | cogs/listeners/channels.py:98-147 | never posts: nothing when the gate is closed or no recent audit entry exists, the gate's own error (the KeyError of `get_enum`, say) when it raises, and otherwise the AttributeError of the generator passed to title_format |
| Channels.ChannelUpdateLog | cogs/listeners/channels.py:150-198 | never posts: a closed gate logs nothing, a raising gate crashes with its error, and an open gate fails at the missing audit entry or on the generator |
| Messages.ContentField | cogs/listeners/messages.py:48-51 | a message with embeds says so; otherwise it shows its content, or `None` when empty |
| Messages.MessageDeleteLog | cogs/listeners/messages.py:19-62 | bot messages are ignored; otherwise it follows the gate, and an open gate posts the author and content, with the moderator when an audit entry exists |
| Messages.EditField | cogs/listeners/messages.py:87-92 | empty content is shown as embeds-only, other content as it is |
| Messages.MessageEditLog | cogs/listeners/messages.py:65-96 | bot authors are ignored; otherwise a closed gate logs nothing, a raising gate crashes with its error, and an open gate posts to its channel a `Message Edited` log with the before and after contents; it posts iff the author is not a bot and the gate is open |
| Messages.BulkDeleteLog | cogs/listeners/messages.py:99-132 | a closed gate logs nothing and a raising gate crashes with its error; an open gate with no audit entry raises IndexError, and otherwise posts to the gate's channel, titled with the count; the moderator field appears iff the entry is at most five seconds old |
| Messages.MessageLogsNeedOpenGate | cogs/listeners/messages.py:26-36 | a posted message log implies audit access, a cached guild, and options holding MESSAGE and not NONE |
| Settings.ConvertPrefix | cogs/settings.py:16-26 | rejects the prefix iff it contains either form of the bot's mention; otherwise returns it unchanged |
| Settings.PrefixWithoutBracketAccepted | cogs/settings.py:16-26 | a prefix without `<` is always accepted |
| Settings.ConvertMuteRole | cogs/settings.py:28-42 | returns the role iff it exists and is below both the bot's and the author's top role, with a distinct error for each refusal |
| Settings.LogOptionsRoundTrip | cogs/settings.py:108-110 | options stored by log_options read back through get_enum as their sum, which contains exactly the chosen options when they are distinct |
| Settings.EmptyOptionsStoreZero | cogs/settings.py:108-110 | choosing no options stores `0b0`, which contains nothing |
| Settings.Permissions.SetFlag | cogs/settings.py:183-187 | setting a permission bit gives it the requested value and leaves every other bit |
| Settings.MutedPermissions | cogs/settings.py:183-187 | the muted overwrite denies send_messages and add_reactions and keeps every other permission |
| ErrorHandler.Handle | cogs/error_handler.py:30-66 | each outcome holds exactly in its case: ignored kinds are ignored; otherwise the handler raises iff there is no command, defers iff the command or its parent has a handler, replies with the message iff the class is listed or derives from one, and in every remaining case reports the message in a code block |
| ErrorHandler.OriginalDecides | cogs/error_handler.py:32 | the wrapped original exception decides the reply |
| ErrorHandler.UnknownCommandIgnored | cogs/error_handler.py:34-35 | CommandNotFound is silently ignored |
| ErrorHandler.SubclassHandledLikeBase | cogs/error_handler.py:34-45 | `isinstance` follows the hierarchy: a subclass is handled exactly as the class it derives from |
| ErrorHandler.MessageNotFoundReplied | cogs/error_handler.py:45-48 | MessageNotFound, a BadArgument subclass, is answered with its own text |
| Owner.ReloadAll | cogs/owner.py:33-52 | successes are the extensions that reload and failures the others, both in order, and together they are a permutation of the extensions |
| Owner.ReloadedSnoc | cogs/owner.py:33-46 | one more extension lands in exactly one of the two lists |
| Owner.ReloadedSplits | cogs/owner.py:33-52 | the two lists together hold every extension exactly as often as it occurs |
| Owner.ReloadedMembers | cogs/owner.py:33-52 | an extension is a success iff it is listed and does not fail |
| Owner.ReloadPartition | cogs/owner.py:33-52 | each extension is in exactly one of the two lists |
| Owner.ListField | cogs/owner.py:47-50 | the joined names, or `None` when the join is empty |
| Owner.ListFieldNone | cogs/owner.py:47-50 | for non-empty names, `None` appears iff the list is empty |
| Owner.Blacklist | cogs/owner.py:121-136 | reacts with the insert's outcome; the cache entry is what the database reads back, a missing read-back raises TypeError, and a successful insert caches the given reason |
| Owner.Unblacklist | cogs/owner.py:140-146 | a failed delete only reacts with thumbs-down; a successful one removes the user from the cache and reacts with thumbs-up, followed by thumbs-down when the user was not cached |
| Owner.DeleteTarget | cogs/owner.py:101-111 | the referenced message wins, then the argument; neither raises BadArgument |
| Owner.DeleteReaction | cogs/owner.py:101-111 | thumbs-up iff there is a message and it was deleted |
| Meta.UptimeOf | cogs/meta.py:30-33 | days, hours, minutes and seconds recompose the truncated elapsed time, with hours below 24 and minutes and seconds below 60 |
| Meta.UptimeExample | cogs/meta.py:30-33 | 90061.9 seconds is one day, one hour, one minute and one second |
| Meta.Invite | cogs/meta.py:68-91 | without permissions it lists the default invites; with them, the argument is refused iff its decimal form is longer than 30 characters |
| Meta.InviteBound | cogs/meta.py:75-78 | accepted iff the permissions value is below 10^30, or its negation below 10^29 |
| Help.SafeGet | utils/help.py:11-15 | indexes like Python, negative indexes included, and gives the default out of range |
| Help.Visible | utils/help.py:162 | the filter keeps exactly the visible commands and never adds one |
| Help.VisibleAppend | utils/help.py:162 | filtering distributes over concatenation, so the kept commands keep their order |
| Help.BotHelpEntries | utils/help.py:160-175 | the bot help lists exactly the kept categories |
| Help.TwoPassesKeep | utils/help.py:162-172 | dropping empty categories then filtering, then dropping the ones left empty, equals one pass keeping each category with visible commands |
| Help.KeptCategoriesIff | utils/help.py:162-172 | a category is kept iff it has visible commands, with exactly those |
| Help.KeptCategoriesAppend | utils/help.py:162-172 | filtering distributes over the category list |
| Help.NonEmptyAppend | utils/help.py:162-172 | dropping empty categories distributes over concatenation |
| Help.MaxPages | utils/help.py:80 | with five per page, the page count is the least that holds every entry and is zero iff there are none |
| Help.Footer | utils/help.py:112-113 | `Page 0/0` iff there are no entries; otherwise page i + 1 of the maximum |
| Help.CogTitle | utils/help.py:126-129 | as written, the conditional covers the whole title: empty without aliases, else the name and the joined aliases |
| Help.CategoryField | utils/help.py:97-111 | the field name is the bold cog name (`None` without a cog), followed by the joined aliases when the cog has them; the value is the description, a newline and the back-quoted command names joined by spaces, so the `None` fallback never shows |
| Help.CommandNames | utils/help.py:109 | the command names, one per command, in order |
| Help.Quoted | utils/help.py:207 | each alias wrapped in backticks, in order |
| Help.AliasField | utils/help.py:207 | `None` iff there are no aliases; otherwise the quoted aliases joined by spaces |
| Help.OrNone | utils/help.py:202 | a non-empty text stands, and an empty or missing one is `None` |
| Help.CommandHelp | utils/help.py:189-217 | nothing iff the command is hidden; otherwise the Help, Aliases and Arguments fields |
| Mutes.DeleteForSpec | cogs/moderator.py:34-38 | the delete removes exactly that member's rows in that guild |
| Mutes.DeleteForKeepsIds | cogs/moderator.py:34-38 | after the delete the row ids are still below the counter and pairwise distinct |
| Mutes.SelectedIff | cogs/moderator.py:55-63 | the query returns exactly the guild's rows ending strictly within the next poll period |
| Mutes.KeyFor | cogs/moderator.py:75-84 | a record key resolves to the column of that name, if any |
| Mutes.KeyForReadsDict | cogs/moderator.py:75-84 | a key is missing from a record iff it names no column; otherwise it reads that column |
| Mutes.KeysResolved | cogs/moderator.py:75-84 | the as-written keys `guildId`, `userId` and `enddtime` name no column, and the lower-case keys name the table's columns |
| Mutes.Steps | cogs/moderator.py:73-90 | one step per record |
| Mutes.StepsAt | cogs/moderator.py:73-90 | step j is the sweep of record j |
| Mutes.GuildTurn | cogs/moderator.py:65-71 | each guild's turn queries its rows and stops the whole sweep when there are none |
| Mutes.RecordTurn | cogs/moderator.py:73-90 | each record either ends the sweep with its exception, is skipped, or arms a timer and queues its id |
| Mutes.SweepApplies | cogs/moderator.py:53-90 | a running poll appends the sweep's timers and ids, and an exception stops the loop |
| Mutes.UsableRole | cogs/moderator.py:253-263 | the role is usable iff it resolves and is below the bot's top role; each failure gives its own error |
| Mutes.Mute | cogs/moderator.py:240-304 | without a usable role nothing changes; otherwise an existing mute is lifted, one row is inserted, the role is added, and a timer is armed iff the mute ends within 30 minutes |
| Mutes.Unmute | cogs/moderator.py:309-340 | succeeds iff the role is usable and the member holds it, then removes the role and every row of the member; failures change nothing |
| Mutes.Fire | cogs/moderator.py:23-45 | a due timer is removed, and the queue, next id and polling flag are untouched; a completed removal drops the role and deletes the member's rows, a Forbidden one deletes the rows and keeps the role, and another HTTP error escapes with rows and role kept |
| Mutes.FailedRemovalOrphansRow | cogs/moderator.py:40-43 | after a removal that fails with another HTTP error the member's ended row stays in the table, and no later sweep selects it |
| Mutes.FireClearsMember | cogs/moderator.py:34-45 | unless the removal fails with an HTTP error, the member's rows in that guild are gone, and a completed removal also drops the role |
| Mutes.QueueOnlyGrows | cogs/moderator.py:86-90 | no transition ever shortens the record queue |
| Mutes.TransitionsKeepValid | cogs/moderator.py:240-340 | every transition keeps row ids pairwise distinct and below the next id |
| Mutes.MuteKeepsValid | cogs/moderator.py:286-293 | the row a mute inserts takes the counter's id, which no kept row has, and the counter moves past it |
| Mutes.MuteArmsIff | cogs/moderator.py:277-293 | a successful mute inserts a row for the member ending at the given time, and arms a timer iff that is within 30 minutes |
| Mutes.StaleTimerEndsNewerMute | cogs/moderator.py:277-284 | a timer from an earlier short mute is not cancelled, so firing it deletes a later, longer mute's rows |
| Mutes.ErrorsChangeNothing | cogs/moderator.py:253-276 | a mute or unmute that raises leaves the state unchanged |
| Mutes.AsWrittenSweepArmsNothing | cogs/moderator.py:75 | as written, the sweep arms no timer and queues no id; it raises KeyError on the first selected row |
| Mutes.AsWrittenSweepStopsPolling | cogs/moderator.py:75 | as written, the first due row raises KeyError and stops the poll loop |
| Mutes.IntendedSweepArmsDueRow | cogs/moderator.py:73-90 | with the table's own column names, a due row of a known member with a cached, existing muted role arms its timer and queues its id |
| Mutes.SweepKeepsCollected | cogs/moderator.py:86-90 | a sweep only appends to the timers and ids collected so far |
| Mutes.UnresolvedRowSkipped | cogs/moderator.py:77-82 | a row whose member or muted role cannot be found is skipped |
| Mutes.ArmedRecord | cogs/moderator.py:77-90 | an armed step is the row's own guild, user and end time, with the cached muted role |
| Mutes.SelectedSteps | cogs/moderator.py:55-90 | every step over a guild's selected rows that arms comes from a due row in the table |
| Mutes.SweepArmsFromDueRows | cogs/moderator.py:58-90 | any sweep continuation arms only timers that come from due, resolvable rows |
| Mutes.IntendedSweepArmsOnlyDueRows | cogs/moderator.py:55-90 | every timer the sweep arms belongs to a row ending within the poll period, for a present member and the cached muted role, and ids pair with timers |
| Mutes.SweepEndsAtEmptyGuild | cogs/moderator.py:68-71 | reaching a guild with no due rows ends the sweep exactly as if the remaining guilds were absent |
| Mutes.LaterGuildsIgnored | cogs/moderator.py:65-71 | guilds after a guild with no due rows are never swept |
| Moderator.ModeratorCog.constructor | cogs/moderator.py:17-21 | the cog starts with the given rows and holdings, an empty queue and no timers, polling |
| Moderator.ModeratorCog.Mute | cogs/moderator.py:240-304 | the command's effect and error are exactly Mutes.Mute |
| Moderator.ModeratorCog.Unmute | cogs/moderator.py:309-340 | the command's effect and error are exactly Mutes.Unmute |
| Moderator.ModeratorCog.PerformUnmute | cogs/moderator.py:23-45 | firing a due timer is exactly Mutes.Fire |
| Moderator.ModeratorCog.PollMutes | cogs/moderator.py:53-90 | one poll tick, for either set of row keys, is exactly Mutes.Sweep with those keys; so the as-written keys stop the loop with KeyError and the table's column names arm the due rows |
| Moderator.ModeratorCog.MutePull | cogs/moderator.py:53-90 | for either set of row keys, the loop over guilds and records appends exactly the sweep's timers and ids and returns its exception |
| Moderator.ModeratorCog.PullRecords | cogs/moderator.py:73-90 | the inner loop appends each record's step and then continues the sweep |
| Text.NatToStringRoundTrip | cogs/meta.py:75-78 | decimal rendering is digits without a leading zero and reads back as the number |
| Text.NatToStringLength | cogs/meta.py:75-78 | a number renders in at most k digits iff it is below 10^k |
| Text.ContainsAt | cogs/settings.py:20-24 | substring containment holds iff the text occurs at some index |
| Text.LowerIdempotent | utils/CustomConverters.py:45 | lower-casing twice is lower-casing once |

## Left out

- The database, Discord's HTTP API, the gateway, `asyncio` sleeps and tasks are parameters or explicit steps. A timer fires only when `PerformUnmute` is called with a clock at or past its time. Races between tasks and the sweep are not modelled.
- `tasks.loop` itself: the poll loop is a `polling` flag that an escaping exception clears. Restarts and the `before_loop` wait are not modelled.
- The order of SQL results: rows are returned in table order.
- Floating point: time arithmetic is exact `real` seconds. float() on up to five digits, a separator and five digits is read as the exact decimal.
- Text is ASCII: lower, upper and title case act on `A`–`Z` and `a`–`z` only.
- `int(s, 2)`: leading and trailing whitespace, signs and underscores are not accepted by the model, since stored options never contain them.
- Discord's role order (position, then id) is abstracted to an integer rank.
- Enums.Iter: `_decompose` comes from Python's `enum` module (3.10 and earlier), which is not part of this model. Its behaviour is written out: set members sorted by value from the highest down, pseudo-members for bits above MODERATION, and the value-0 pseudo-member when no bit is set. Each bit's pseudo-member is assumed to exist already. `LoggingEnum(n)` creates one for every extra bit of `n`, and each flag the bot iterates is built that way, directly in `log_options` or through `from_binary`.
- Log embeds: colours, timestamps, thumbnails and footers are left out. The title and fields are modelled; embed descriptions are only modelled where a contract needs them.
- `escape_markdown`, `when_mentioned_or` and the Flags field of command help (it needs the argument parser's internals).
- Commands not in this model: kick, ban, softban, purge, load, unload, reload, shutdown, ping, privacy, flags, the `log set`/`log remove`/`info` subcommands and the options listing. Each is a thin call into Discord or the database with no logic of its own beyond what the modelled checks already cover.
- The `_queue.pop` branch of `perform_unmute` is unreachable: no caller passes a record. `Fire` does not touch the queue.
- Mutes.Mute: assumes that adding and removing the role through Discord succeeds. The source does not handle a failure there either.
- Mutes.Mute, Mutes.Unmute and Mutes.Fire: every database write of the moderator cog succeeds; a failing INSERT or DELETE, which would raise after the role change, is not modelled.
- Messages.MessageDeleteLog and Messages.MessageEditLog: events always carry a guild. A deleted or edited direct message raises AttributeError at `guild.me` in the source; the model does not represent it.
- Converters.ConvertTime: `now` is taken to be a clock reading after year 1, so the OverflowError of `timedelta` itself (over 999999999 days) is covered by the end-of-year-9999 bound.
- Bot.GetPrefix: a non-string, non-null prefix raises TypeError in the model. That stands in for whatever the framework does with such a value.
- Utils.GetEnum: a guild missing from the cache raises `MissingGuild`, which stands for `KeyError(guild.id)`.
- Mutes.SweepRecord: in the source, at cogs/moderator.py:75, the loop variable `guild` is rebound by `get_guild`. The model reads the rebound guild, which is the row's.
- Converters.ConvertTime: the KeyError branch of the time_dict lookup is left out because `FindAllWellFormed` proves it unreachable.
- Channels.ChannelCreateLog and Channels.ChannelUpdateLog: they stop at the first exception, so the rest of each embed is not modelled.

## Findings

| source | as written | input that shows it | evidently intended | confidence | as-written member | corrected member |
|---|---|---|---|---|---|---|
| cogs/moderator.py:75-84 | the sweep reads `record["guildId"]`, `record["userId"]` and `record["enddtime"]`, but the table's columns are `guildid`, `userid` and `endtime` | any mute due within the next 15 minutes: the first selected row raises KeyError, no timer is armed, and the poll loop stops | read the table's own column names, so that due mutes are armed and polling continues | not executed | Mutes.AsWrittenSweepArmsNothing | Mutes.IntendedSweepArmsDueRow |
| utils/utils.py:41 | an entry is accepted when `created_at - now <= 3 s`, which holds for every past entry | an audit entry created an hour before the event is reported as its cause | accept only entries created within three seconds before the event | not executed | Utils.GetAuditAcceptsStaleEntry | Utils.GetAuditIntended |
| cogs/checks.py:11 | the walrus binds `reason` to `blacklisted.get(id) is not None`, because `:=` binds more loosely than `is not`, so the reason shown is a boolean | a user blacklisted with reason `spam` is told the reason is `True` | show the stored reason | not executed | Checks.SpamShownAsTrue | Checks.BlacklistCheckIntended |
