/**
 * The shapes in which the bot sees stored data and the chat platform: database
 * records turned into dictionaries, the guild-keyed cache, and the few facts about
 * roles, members and audit-log entries that the core reads.
 */
module Records {
  import opened Wrappers

  type UserId = int
  type GuildId = int
  type RoleId = int
  type ChannelId = int

  /** The exceptions the modelled code can raise or catch. */
  datatype Raised =
    | KeyError(key: string)
    /** KeyError for a guild id missing from the cache. */
    | MissingGuild(id: GuildId)
    | TypeError
    | AttributeError
    | IndexError
    /** A datetime past the end of year 9999. */
    | OverflowError
    | Forbidden
    | BadArgument(message: string)
    | MemberNotFound(argument: string)
    | RoleNotFound(argument: string)
    | Blacklisted(message: string)

  /** The outcome of fetching one audit-log entry: forbidden, or the entries returned (newest first). */
  datatype AuditFetch = Denied | Fetched(entries: seq<AuditEntry>)

  /** A column value as the database driver hands it back (`NULL`, integer, text, timestamp). */
  datatype Value = Null | Int(i: int) | Str(s: string) | Moment(t: real)

  /** `dict(record)`: column name to value. A key that is not a column raises KeyError. */
  type Row = map<string, Value>

  /** Keys of the bot-wide cache: a guild id, or the string "default". */
  datatype CacheKey = Guild(id: GuildId) | Default

  type Cache = map<CacheKey, Row>

  /** A row of the `config` table. */
  datatype ConfigRow = ConfigRow(
    id: GuildId,
    prefix: Option<string>,
    logid: Option<ChannelId>,
    muteid: Option<RoleId>,
    options: Option<string>)

  function OrNull(v: Option<Value>): Value {
    if v.Some? then v.value else Null
  }

  /** `dict(config)`: every column of the row, `NULL` where the column is unset. */
  function ConfigDict(c: ConfigRow): (r: Row)
    ensures r.Keys == {"id", "prefix", "logid", "muteid", "options"}
  {
    map[
      "id" := Int(c.id),
      "prefix" := if c.prefix.Some? then Str(c.prefix.value) else Null,
      "logid" := if c.logid.Some? then Int(c.logid.value) else Null,
      "muteid" := if c.muteid.Some? then Int(c.muteid.value) else Null,
      "options" := if c.options.Some? then Str(c.options.value) else Null
    ]
  }

  /**
   * A role, compared by a single rank that stands for the platform's ordering of
   * roles (position, ties broken by id): `a >= b` is `a.rank >= b.rank`.
   */
  datatype Role = Role(id: RoleId, rank: int)

  predicate RoleAtLeast(a: Role, b: Role) { a.rank >= b.rank }

  /** A guild member as the converters see it: identity and highest role. */
  datatype Member = Member(id: UserId, topRole: Role)

  /** One permission override: the target's name and its (permission, setting) pairs. */
  datatype Overwrite = Overwrite(target: string, settings: seq<(string, Option<bool>)>)

  /** The value of one attribute in an audit entry's `after` diff. */
  datatype ChangeValue = Overwrites(list: Option<seq<Overwrite>>) | Plain(repr: string)

  /** An audit-log entry: who acted, when, and the attributes it reports. */
  datatype AuditEntry = AuditEntry(user: UserId, userName: string, createdAt: real, after: seq<(string, ChangeValue)>)
}
