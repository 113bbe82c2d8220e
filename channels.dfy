/** The channel listeners: deleted, created and edited channels, and the permission-overwrites text. */
module Channels {
  import opened Wrappers
  import opened Text
  import opened Records
  import opened Enums
  import opened Utils
  import opened Logging

  /** `str()` of an overwrite setting: allowed, denied or inherited. */
  function SettingText(v: Option<bool>): string {
    match v
    case Some(true) => "True"
    case Some(false) => "False"
    case None => "None"
  }

  function SettingLine(setting: (string, Option<bool>)): string {
    TitleFormat(setting.0) + " - " + SettingText(setting.1) + "\n"
  }

  function SettingLines(settings: seq<(string, Option<bool>)>): string {
    if settings == [] then "" else SettingLines(settings[..|settings| - 1]) + SettingLine(settings[|settings| - 1])
  }

  /** A block as far as its first `j` permission lines. */
  function Partial(o: Overwrite, j: nat): string
    requires j <= |o.settings|
  {
    o.target + " \n" + SettingLines(o.settings[..j])
  }

  /** One target's block: its name line, one line per permission, then a blank separator. */
  function Block(o: Overwrite): string {
    Partial(o, |o.settings|) + "\n\n"
  }

  /** The text `format_overwrites` builds: the blocks of all entries, in order. */
  function Formatted(overwrites: seq<Overwrite>): string {
    if overwrites == [] then "" else Formatted(overwrites[..|overwrites| - 1]) + Block(overwrites[|overwrites| - 1])
  }

  lemma PartialStep(o: Overwrite, j: nat)
    requires j < |o.settings|
    ensures Partial(o, j + 1) == Partial(o, j) + SettingLine(o.settings[j])
  {
    assert o.settings[..j + 1][..j] == o.settings[..j];
  }

  lemma FormattedStep(overwrites: seq<Overwrite>, i: nat)
    requires i < |overwrites|
    ensures Formatted(overwrites[..i + 1]) == Formatted(overwrites[..i]) + Block(overwrites[i])
  {
    assert overwrites[..i + 1][..i] == overwrites[..i];
  }

  lemma Assoc(a: string, b: string, c: string)
    ensures (a + b) + c == a + (b + c)
  {
  }

  /** `format_overwrites`: the string accumulated by the two nested loops. */
  method FormatOverwrites(overwrites: seq<Overwrite>) returns (formatted: string)
    ensures formatted == Formatted(overwrites)
  {
    formatted := "";
    var i := 0;
    while i < |overwrites|
      invariant 0 <= i <= |overwrites|
      invariant formatted == Formatted(overwrites[..i])
    {
      var entry := overwrites[i];
      var start := formatted;
      formatted := formatted + (entry.target + " \n");
      assert entry.settings[..0] == [];
      assert Partial(entry, 0) == entry.target + " \n";
      var j := 0;
      while j < |entry.settings|
        invariant 0 <= j <= |entry.settings|
        invariant formatted == start + Partial(entry, j)
      {
        PartialStep(entry, j);
        Assoc(start, Partial(entry, j), SettingLine(entry.settings[j]));
        formatted := formatted + SettingLine(entry.settings[j]);
        j := j + 1;
      }
      Assoc(start, Partial(entry, j), "\n\n");
      formatted := formatted + "\n\n";
      FormattedStep(overwrites, i);
      i := i + 1;
    }
    assert overwrites[..i] == overwrites;
  }

  /** Nothing to format gives the empty string. */
  lemma FormattedEmpty()
    ensures Formatted([]) == ""
  {
  }

  lemma FormattedSnoc(s: seq<Overwrite>, x: Overwrite)
    ensures Formatted(s + [x]) == Formatted(s) + Block(x)
  {
    assert (s + [x])[..|s|] == s;
  }

  /** Formatting distributes over concatenation: the blocks appear in entry order. */
  lemma {:induction false} FormattedAppend(a: seq<Overwrite>, b: seq<Overwrite>)
    ensures Formatted(a + b) == Formatted(a) + Formatted(b)
    decreases |b|
  {
    if b == [] {
      assert a + b == a;
    } else {
      var b' := b[..|b| - 1];
      FormattedAppend(a, b');
      LastOfAppend(a, b);
      Assoc(Formatted(a), Formatted(b'), Block(b[|b| - 1]));
    }
  }

  lemma LastOfAppend(a: seq<Overwrite>, b: seq<Overwrite>)
    requires b != []
    ensures (a + b)[..|a + b| - 1] == a + b[..|b| - 1]
    ensures (a + b)[|a + b| - 1] == b[|b| - 1]
  {
  }

  /** Every block starts with its target's name line and ends with the blank separator. */
  lemma BlockShape(o: Overwrite)
    ensures |Block(o)| >= |o.target| + 4
    ensures Block(o)[..|o.target| + 2] == o.target + " \n"
    ensures Block(o)[|Block(o)| - 2..] == "\n\n"
  {
  }

  /** The audit entry's changes carry overwrite lists exactly under the "overwrites" key. */
  predicate WellTyped(after: seq<(string, ChangeValue)>) {
    forall i :: 0 <= i < |after| ==> (after[i].0 == "overwrites" <==> after[i].1.Overwrites?)
  }

  /**
   * The diff fields of `on_channel_delete`: an "overwrites" change with no list is
   * skipped; one with a list becomes an Overwrites field holding the paste link
   * (or "None"); every other change becomes its title-cased name and its value in
   * backticks. `paste` stands for the paste service.
   */
  function DiffFields(after: seq<(string, ChangeValue)>, paste: string -> string): (r: seq<(string, string)>)
    requires WellTyped(after)
  {
    if after == [] then []
    else
      var diff := after[0];
      var field :=
        if diff.0 == "overwrites" then
          (if diff.1.list.None? then []
           else [("Overwrites", var url := paste(Formatted(diff.1.list.value)); if url != "" then url else "None")])
        else [(TitleFormat(diff.0), "`" + diff.1.repr + "`")];
      field + DiffFields(after[1..], paste)
  }

  /** The number of changes the delete log skips. */
  function Skipped(after: seq<(string, ChangeValue)>): nat {
    if after == [] then 0
    else (if after[0].0 == "overwrites" && after[0].1.Overwrites? && after[0].1.list.None? then 1 else 0) + Skipped(after[1..])
  }

  /** One field per change, except the skipped empty overwrites; a plain change keeps its place and its text. */
  lemma {:induction false} DiffFieldsCount(after: seq<(string, ChangeValue)>, paste: string -> string)
    requires WellTyped(after)
    ensures |DiffFields(after, paste)| == |after| - Skipped(after)
    ensures Skipped(after) == 0 ==> forall i :: 0 <= i < |after| && after[i].0 != "overwrites" ==>
      DiffFields(after, paste)[i] == (TitleFormat(after[i].0), "`" + after[i].1.repr + "`")
  {
    if after != [] {
      assert WellTyped(after[1..]) by {
        forall i | 0 <= i < |after[1..]| ensures (after[1..][i].0 == "overwrites" <==> after[1..][i].1.Overwrites?) {
          assert after[1..][i] == after[i + 1];
        }
      }
      DiffFieldsCount(after[1..], paste);
      if Skipped(after) == 0 {
        forall i | 0 <= i < |after| && after[i].0 != "overwrites"
          ensures DiffFields(after, paste)[i] == (TitleFormat(after[i].0), "`" + after[i].1.repr + "`")
        {
          if i > 0 {
            assert after[1..][i - 1] == after[i];
          }
        }
      }
    }
  }

  /** The channel-side inputs of the gate. */
  datatype GuildView = GuildView(id: GuildId, canViewAudit: bool, channels: set<ChannelId>)

  /**
   * `on_channel_delete`: after the gate, the newest channel-delete entry (none
   * raises IndexError; the entry is never None, so the branch with the nested
   * `add_field` call is unreachable); then the channel field, the diff fields and
   * the Moderator field.
   */
  function ChannelDeleteLog(guild: GuildView, cache: Cache, channelInfo: string, entries: seq<AuditEntry>,
                            paste: string -> string): (r: Log)
    requires forall i :: 0 <= i < |entries| ==> WellTyped(entries[i].after)
    ensures r.Post? <==> LogGate(guild.canViewAudit, cache, guild.id, CHANNELS, guild.channels).Open? && entries != []
    ensures match LogGate(guild.canViewAudit, cache, guild.id, CHANNELS, guild.channels)
      case Closed => r == NoLog
      case Raise(e) => r == Crash(e)
      case Open(c) => if entries == [] then r == Crash(IndexError) else r.Post? && r.channel == c
    ensures r.Post? ==> r.title == "Channel Deleted"
    ensures r.Post? ==>
      r.fields == [("**Channel**", channelInfo)] + DiffFields(entries[0].after, paste) + [("**Moderator**", entries[0].userName)]
  {
    match LogGate(guild.canViewAudit, cache, guild.id, CHANNELS, guild.channels)
    case Closed => NoLog
    case Raise(e) => Crash(e)
    case Open(c) =>
      if entries == [] then Crash(IndexError)
      else
        var entry := entries[0];
        Post(c, "Channel Deleted",
          [("**Channel**", channelInfo)] + DiffFields(entry.after, paste) + [("**Moderator**", entry.userName)])
  }

  /**
   * `on_channel_create`: `audit` is what `get_audit` returned; None ends without a
   * log, and with an entry `title_format` is applied to a generator and raises.
   */
  function ChannelCreateLog(guild: GuildView, cache: Cache, audit: Option<AuditEntry>): (r: Log)
    ensures !r.Post?
    ensures r == NoLog <==>
      !LogGate(guild.canViewAudit, cache, guild.id, CHANNELS, guild.channels).Raise? &&
      (!LogGate(guild.canViewAudit, cache, guild.id, CHANNELS, guild.channels).Open? || audit.None?)
    ensures LogGate(guild.canViewAudit, cache, guild.id, CHANNELS, guild.channels).Open? && audit.Some? ==>
      r == Crash(AttributeError)
    ensures LogGate(guild.canViewAudit, cache, guild.id, CHANNELS, guild.channels).Raise? ==>
      r == Crash(LogGate(guild.canViewAudit, cache, guild.id, CHANNELS, guild.channels).error)
  {
    match LogGate(guild.canViewAudit, cache, guild.id, CHANNELS, guild.channels)
    case Closed => NoLog
    case Raise(e) => Crash(e)
    case Open(_) =>
      if audit.None? then NoLog else Crash(AttributeError)
  }

  /**
   * `on_channel_update`: after the gate, the newest channel-update entry (none
   * raises IndexError), then the same `title_format` call on a generator.
   */
  function ChannelUpdateLog(guild: GuildView, cache: Cache, entries: seq<AuditEntry>): (r: Log)
    ensures !r.Post?
    ensures LogGate(guild.canViewAudit, cache, guild.id, CHANNELS, guild.channels).Open? ==>
      r == Crash(if entries == [] then IndexError else AttributeError)
    ensures LogGate(guild.canViewAudit, cache, guild.id, CHANNELS, guild.channels).Closed? ==> r == NoLog
    ensures LogGate(guild.canViewAudit, cache, guild.id, CHANNELS, guild.channels).Raise? ==>
      r == Crash(LogGate(guild.canViewAudit, cache, guild.id, CHANNELS, guild.channels).error)
  {
    match LogGate(guild.canViewAudit, cache, guild.id, CHANNELS, guild.channels)
    case Closed => NoLog
    case Raise(e) => Crash(e)
    case Open(_) =>
      if entries == [] then Crash(IndexError) else Crash(AttributeError)
  }
}
