/**
 * The check every logging listener runs before it builds a log: the audit-log
 * permission, the guild's options flag, a configured log channel, the listener's
 * category and the channel resolving in the guild.
 */
module Logging {
  import opened Wrappers
  import opened Records
  import opened Enums
  import opened Utils

  datatype Gate = Closed | Open(channel: ChannelId) | Raise(error: Raised)

  /** What a listener ends with: no log, an exception, or one embed posted to the log channel. */
  datatype Log = NoLog | Crash(error: Raised) | Post(channel: ChannelId, title: string, fields: seq<(string, string)>)

  /** `cache[guild].get("logid")` handed to `guild.get_channel`: only an id of one of the guild's channels resolves. */
  function LogChannel(row: Row, channels: set<ChannelId>): Option<ChannelId> {
    if "logid" in row && row["logid"].Int? && row["logid"].i in channels then Some(row["logid"].i) else None
  }

  /**
   * The gate, in the listeners' order: no audit-log permission returns at once;
   * `get_enum` may raise; NONE set or no `logid` skips; then the category must be
   * set and the channel must resolve.
   */
  function LogGate(canViewAudit: bool, cache: Cache, guild: GuildId, category: LogOption, channels: set<ChannelId>): (r: Gate)
    ensures r.Raise? <==> canViewAudit && Guild(guild) !in cache
    ensures r.Open? <==>
      canViewAudit && Guild(guild) in cache && GetEnum(cache, guild).Ok? &&
      !Has(GetEnum(cache, guild).value, LogOption.NONE) && Has(GetEnum(cache, guild).value, category) &&
      LogChannel(cache[Guild(guild)], channels).Some?
    ensures r.Open? ==> r.channel in channels && cache[Guild(guild)]["logid"] == Int(r.channel)
  {
    if !canViewAudit then Closed
    else
      match GetEnum(cache, guild)
      case Err(e) => Raise(e)
      case Ok(options) =>
        var row := cache[Guild(guild)];
        var id := if "logid" in row then row["logid"] else Null;
        if Has(options, LogOption.NONE) || id == Null then Closed
        else
          var logChannel := LogChannel(row, channels);
          if !Has(options, category) || logChannel.None? then Closed
          else Open(logChannel.value)
  }

  /** Stored options with NONE among them close the gate for every category. */
  lemma NoneStopsEveryLog(canViewAudit: bool, cache: Cache, guild: GuildId, options: seq<LogOption>,
                          category: LogOption, channels: set<ChannelId>)
    requires Guild(guild) in cache && "options" in cache[Guild(guild)]
    requires cache[Guild(guild)]["options"] == Str(Bin(Sum(options)))
    requires Distinct(options) && LogOption.NONE in options
    ensures !LogGate(canViewAudit, cache, guild, category, channels).Open?
  {
    GetEnumReadsStoredOptions(cache, guild, options);
    SumOfDistinct(options, LogOption.NONE);
  }

  /** A guild that stored exactly the distinct options `options` gets `category` logged iff it chose it. */
  lemma ChosenCategoriesAreLogged(cache: Cache, guild: GuildId, options: seq<LogOption>, category: LogOption,
                                  channels: set<ChannelId>)
    requires Guild(guild) in cache && "options" in cache[Guild(guild)]
    requires cache[Guild(guild)]["options"] == Str(Bin(Sum(options)))
    requires Distinct(options) && LogOption.NONE !in options
    requires LogChannel(cache[Guild(guild)], channels).Some?
    ensures LogGate(true, cache, guild, category, channels).Open? <==> category in options
  {
    GetEnumReadsStoredOptions(cache, guild, options);
    SumOfDistinct(options, LogOption.NONE);
    SumOfDistinct(options, category);
  }
}
