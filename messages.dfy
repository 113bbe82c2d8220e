/** The message listeners: deleted, edited and bulk-deleted messages. */
module Messages {
  import opened Wrappers
  import opened Text
  import opened Records
  import opened Enums
  import opened Utils
  import opened Logging

  /** A message as the listeners see it; `content` is already markdown-escaped. */
  datatype Message = Message(authorIsBot: bool, content: string, hasEmbeds: bool)

  /** The guild-side inputs of the gate. */
  datatype GuildView = GuildView(id: GuildId, canViewAudit: bool, channels: set<ChannelId>)

  /** The deleted-message Content field: the embeds note wins; otherwise the text, or "None" when it is empty. */
  function ContentField(message: Message): (r: string)
    ensures message.hasEmbeds ==> r == "Message had embeds."
    ensures !message.hasEmbeds && message.content != "" ==> r == message.content
    ensures !message.hasEmbeds && message.content == "" ==> r == "None"
  {
    if !message.hasEmbeds then (if message.content != "" then message.content else "None")
    else "Message had embeds."
  }

  function ModeratorField(entry: AuditEntry): (string, string) {
    ("**Moderator**", "Moderator: " + entry.userName + " [" + IntToString(entry.user) + "]")
  }

  /**
   * `on_msg_delete`: `audit` is what `get_audit` returned. A bot author never
   * produces a log; an open gate always posts, with a Moderator field iff an
   * entry came back.
   */
  function MessageDeleteLog(message: Message, guild: GuildView, cache: Cache, audit: Option<AuditEntry>): (r: Log)
    ensures message.authorIsBot ==> r == NoLog
    ensures !message.authorIsBot ==> match LogGate(guild.canViewAudit, cache, guild.id, MESSAGE, guild.channels)
      case Closed => r == NoLog
      case Raise(e) => r == Crash(e)
      case Open(c) =>
        (r.Post? && r.channel == c && r.title == "Message Deleted" && 1 <= |r.fields| <= 2 &&
         r.fields[0] == ("**Content**", ContentField(message)) && (|r.fields| == 2 <==> audit.Some?))
  {
    if message.authorIsBot then NoLog
    else
      match LogGate(guild.canViewAudit, cache, guild.id, MESSAGE, guild.channels)
      case Closed => NoLog
      case Raise(e) => Crash(e)
      case Open(c) =>
        var fields := [("**Content**", ContentField(message))] + (if audit.Some? then [ModeratorField(audit.value)] else []);
        Post(c, "Message Deleted", fields)
  }

  /** An edit field: the escaped text, or the embeds note when it is empty. */
  function EditField(content: string): (r: string)
    ensures content != "" ==> r == content
    ensures content == "" ==> r == "Message only contained embeds."
  {
    if content != "" then content else "Message only contained embeds."
  }

  /** `on_msg_edit`: the gate, then Before and After fields. */
  function MessageEditLog(before: Message, after: Message, guild: GuildView, cache: Cache): (r: Log)
    ensures before.authorIsBot ==> r == NoLog
    ensures r.Post? <==> !before.authorIsBot && LogGate(guild.canViewAudit, cache, guild.id, MESSAGE, guild.channels).Open?
    ensures !before.authorIsBot ==> match LogGate(guild.canViewAudit, cache, guild.id, MESSAGE, guild.channels)
      case Closed => r == NoLog
      case Raise(e) => r == Crash(e)
      case Open(c) =>
        r.Post? && r.channel == c && r.title == "Message Edited" &&
        r.fields == [("Before Content", EditField(before.content)), ("After Content", EditField(after.content))]
  {
    if before.authorIsBot then NoLog
    else
      match LogGate(guild.canViewAudit, cache, guild.id, MESSAGE, guild.channels)
      case Closed => NoLog
      case Raise(e) => Crash(e)
      case Open(c) => Post(c, "Message Edited",
        [("Before Content", EditField(before.content)), ("After Content", EditField(after.content))])
  }

  /** The bulk-delete moderator entry is used only when it is at most 5 seconds old. */
  const BulkFreshness: real := 5.0

  /**
   * `bulk_delete`: after the gate, the newest bulk-delete audit entry (none raises
   * IndexError); it is dropped when more than 5 s old. The title carries the count.
   */
  function BulkDeleteLog(count: nat, guild: GuildView, cache: Cache, entries: seq<AuditEntry>, now: real): (r: Log)
    ensures r.Post? <==> LogGate(guild.canViewAudit, cache, guild.id, MESSAGE, guild.channels).Open? && entries != []
    ensures r.Post? ==> r.title == NatToString(count) + " Bulk Deleted"
    ensures r.Post? ==> (r.fields != [] <==> now - entries[0].createdAt <= BulkFreshness)
    ensures r.Post? && r.fields != [] ==> r.fields == [ModeratorField(entries[0])]
    ensures match LogGate(guild.canViewAudit, cache, guild.id, MESSAGE, guild.channels)
      case Closed => r == NoLog
      case Raise(e) => r == Crash(e)
      case Open(c) => if entries == [] then r == Crash(IndexError) else r.Post? && r.channel == c
  {
    match LogGate(guild.canViewAudit, cache, guild.id, MESSAGE, guild.channels)
    case Closed => NoLog
    case Raise(e) => Crash(e)
    case Open(c) =>
      if entries == [] then Crash(IndexError)
      else
        var entry := if now - entries[0].createdAt > BulkFreshness then None else Some(entries[0]);
        Post(c, NatToString(count) + " Bulk Deleted", if entry.Some? then [ModeratorField(entry.value)] else [])
  }

  /** Every message listener posts only through an open MESSAGE gate. */
  lemma MessageLogsNeedOpenGate(message: Message, after: Message, guild: GuildView, cache: Cache,
                                audit: Option<AuditEntry>, count: nat, entries: seq<AuditEntry>, now: real)
    requires MessageDeleteLog(message, guild, cache, audit).Post? || MessageEditLog(message, after, guild, cache).Post?
      || BulkDeleteLog(count, guild, cache, entries, now).Post?
    ensures guild.canViewAudit && Guild(guild.id) in cache
    ensures GetEnum(cache, guild.id).Ok?
    ensures Has(GetEnum(cache, guild.id).value, MESSAGE) && !Has(GetEnum(cache, guild.id).value, LogOption.NONE)
  {
  }
}
