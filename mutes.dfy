/**
 * The timed-unmute state machine of the moderator cog, as transitions on a value:
 * the `mutes` table, the members holding a muted role, the queue of record ids
 * the sweep appends to, the armed unmute timers, and whether the periodic sweep
 * is still running. Time is seconds on an explicit clock; firing a timer is a
 * step of its own.
 */
module Mutes {
  import opened Wrappers
  import opened Text
  import opened Records

  /** A row of the `mutes` table; `id` is the serial key. */
  datatype MuteRecord = MuteRecord(id: int, userid: UserId, guildid: GuildId, starttime: real, endtime: real, reason: string)

  /** A member of a guild holding a role. */
  datatype Holding = Holding(guild: GuildId, user: UserId, role: RoleId)

  /** An armed `perform_unmute` task: remove `role` from the member at `when`, then delete their rows. */
  datatype Timer = Timer(guild: GuildId, user: UserId, role: RoleId, when: real)

  datatype MuteState = MuteState(
    mutes: seq<MuteRecord>,
    holders: set<Holding>,
    queue: seq<int>,
    timers: seq<Timer>,
    nextId: int,
    polling: bool)

  const PollPeriod: real := 900.0
  /** `mute` arms a timer itself only when the mute ends within this many seconds. */
  const DirectArm: real := 1800.0

  /** Every row id was handed out by the serial counter: ids are below it and no two rows share one. */
  predicate Valid(s: MuteState) {
    IdsBelow(s.mutes, s.nextId) && IdsDistinct(s.mutes)
  }

  predicate IdsBelow(rows: seq<MuteRecord>, n: int) {
    forall i :: 0 <= i < |rows| ==> rows[i].id < n
  }

  predicate IdsDistinct(rows: seq<MuteRecord>) {
    forall i, j :: 0 <= i < j < |rows| ==> rows[i].id != rows[j].id
  }

  /** `DELETE FROM mutes WHERE guildid = g AND userid = u`. */
  function DeleteFor(rows: seq<MuteRecord>, g: GuildId, u: UserId): seq<MuteRecord> {
    if rows == [] then []
    else (if rows[0].guildid == g && rows[0].userid == u then [] else [rows[0]]) + DeleteFor(rows[1..], g, u)
  }

  /** The delete removes exactly the member's rows in that guild and keeps every other row. */
  lemma {:induction false} DeleteForSpec(rows: seq<MuteRecord>, g: GuildId, u: UserId, r: MuteRecord)
    ensures r in DeleteFor(rows, g, u) <==> r in rows && !(r.guildid == g && r.userid == u)
    ensures |DeleteFor(rows, g, u)| <= |rows|
  {
    if rows != [] {
      DeleteForSpec(rows[1..], g, u, r);
      assert r in rows <==> r == rows[0] || r in rows[1..];
    }
  }

  /** The delete keeps a subsequence of the rows, so their ids stay below the counter and distinct. */
  lemma {:induction false} DeleteForKeepsIds(rows: seq<MuteRecord>, g: GuildId, u: UserId, n: int)
    requires IdsBelow(rows, n) && IdsDistinct(rows)
    ensures IdsBelow(DeleteFor(rows, g, u), n) && IdsDistinct(DeleteFor(rows, g, u))
  {
    if rows != [] {
      var tail := rows[1..];
      forall i | 0 <= i < |tail| ensures tail[i].id < n && tail[i].id != rows[0].id {
        assert tail[i] == rows[i + 1];
      }
      forall i, j | 0 <= i < j < |tail| ensures tail[i].id != tail[j].id {
        assert tail[i] == rows[i + 1] && tail[j] == rows[j + 1];
      }
      DeleteForKeepsIds(tail, g, u, n);
      var rest := DeleteFor(tail, g, u);
      forall j | 0 <= j < |rest| ensures rest[j].id != rows[0].id {
        DeleteForSpec(tail, g, u, rest[j]);
      }
      var head: seq<MuteRecord> := if rows[0].guildid == g && rows[0].userid == u then [] else [rows[0]];
      assert DeleteFor(rows, g, u) == head + rest;
      forall i | 0 <= i < |head + rest| ensures (head + rest)[i].id < n {
        if i >= |head| { assert (head + rest)[i] == rest[i - |head|]; }
      }
      forall i, j | 0 <= i < j < |head + rest| ensures (head + rest)[i].id != (head + rest)[j].id {
        assert (head + rest)[j] == rest[j - |head|];
        if i >= |head| { assert (head + rest)[i] == rest[i - |head|]; }
      }
    }
  }

  /** The sweep's query: the guild's rows whose end lies strictly inside `(now, now + 900)`. */
  function Selected(rows: seq<MuteRecord>, g: GuildId, now: real): seq<MuteRecord> {
    if rows == [] then []
    else
      (if rows[0].guildid == g && now < rows[0].endtime < now + PollPeriod then [rows[0]] else [])
      + Selected(rows[1..], g, now)
  }

  /** Both bounds of the window are strict; a row already past due is never selected again. */
  lemma {:induction false} SelectedIff(rows: seq<MuteRecord>, g: GuildId, now: real, r: MuteRecord)
    ensures r in Selected(rows, g, now) <==> r in rows && r.guildid == g && now < r.endtime < now + PollPeriod
  {
    if rows != [] {
      SelectedIff(rows[1..], g, now, r);
      assert r in rows <==> r == rows[0] || r in rows[1..];
    }
  }

  /** The columns of the `mutes` table. */
  datatype Column = IdColumn | UserColumn | GuildColumn | StartColumn | EndColumn | ReasonColumn

  /** The column a key of `dict(record)` names, if any: the table's lower-case column names. */
  function ColumnNamed(name: string): Option<Column> {
    if name == "id" then Some(IdColumn)
    else if name == "userid" then Some(UserColumn)
    else if name == "guildid" then Some(GuildColumn)
    else if name == "starttime" then Some(StartColumn)
    else if name == "endtime" then Some(EndColumn)
    else if name == "reason" then Some(ReasonColumn)
    else None
  }

  function ColumnValue(r: MuteRecord, c: Column): Value {
    match c
    case IdColumn => Int(r.id)
    case UserColumn => Int(r.userid)
    case GuildColumn => Int(r.guildid)
    case StartColumn => Moment(r.starttime)
    case EndColumn => Moment(r.endtime)
    case ReasonColumn => Str(r.reason)
  }

  /** `dict(record)` of a mutes row. */
  function RecordDict(r: MuteRecord): Row {
    map["id" := Int(r.id), "userid" := Int(r.userid), "guildid" := Int(r.guildid),
        "starttime" := Moment(r.starttime), "endtime" := Moment(r.endtime), "reason" := Str(r.reason)]
  }

  /** A key the sweep reads from `dict(record)`, with the column it names resolved once. */
  datatype Key = Key(name: string, column: Option<Column>)

  function KeyFor(name: string): (k: Key)
    ensures k.name == name
  {
    Key(name, ColumnNamed(name))
  }

  /** Reading a resolved key is reading `dict(record)`: a name that is not a column raises KeyError. */
  lemma {:induction false} KeyForReadsDict(r: MuteRecord, name: string)
    ensures KeyFor(name).column.None? <==> name !in RecordDict(r)
    ensures KeyFor(name).column.Some? ==> RecordDict(r)[name] == ColumnValue(r, KeyFor(name).column.value)
  {
  }

  /** `record[key]`. */
  function Lookup(r: MuteRecord, k: Key): Result<Value, Raised> {
    match k.column
    case None => Err(KeyError(k.name))
    case Some(c) => Ok(ColumnValue(r, c))
  }

  /** The keys the sweep reads: from the row, the guild, the user and the end; from the cache, the muted role. */
  datatype SweepKeys = SweepKeys(guild: Key, user: Key, role: string, end: Key)

  /** The keys `mute_pull` uses as written. */
  const AsWrittenKeys := SweepKeys(Key("guildId", None), Key("userId", None), "muted_role", Key("enddtime", None))
  /** The keys the rest of the program writes: the table's columns and the config's `muteid`. */
  const IntendedKeys := SweepKeys(Key("guildid", Some(GuildColumn)), Key("userid", Some(UserColumn)), "muteid",
                                  Key("endtime", Some(EndColumn)))

  /** Both key sets resolve their names as `dict(record)` does. */
  lemma KeysResolved()
    ensures AsWrittenKeys.guild == KeyFor("guildId") && AsWrittenKeys.user == KeyFor("userId") && AsWrittenKeys.end == KeyFor("enddtime")
    ensures IntendedKeys.guild == KeyFor("guildid") && IntendedKeys.user == KeyFor("userid") && IntendedKeys.end == KeyFor("endtime")
  {
  }

  /** What the sweep can resolve: the bot's guilds, each guild's members and roles, and the config cache. */
  datatype SweepEnv = SweepEnv(guilds: set<GuildId>, members: set<(GuildId, UserId)>, roles: set<(GuildId, RoleId)>, cache: Cache)

  datatype RecordStep = Arm(timer: Timer, id: int) | Skip | Abort(error: Raised)

  /**
   * The body of the sweep's inner loop for one row, in the source's order: the
   * guild (an unknown guild makes `get_member` fail on None), the member, the
   * cached muted role, the skip when either is missing, then the end time.
   */
  function SweepRecord(r: MuteRecord, env: SweepEnv, keys: SweepKeys): RecordStep {
    match Lookup(r, keys.guild)
    case Err(e) => Abort(e)
    case Ok(gv) =>
      if !(gv.Int? && gv.i in env.guilds) then Abort(AttributeError)
      else
        var g := gv.i;
        match Lookup(r, keys.user)
        case Err(e) => Abort(e)
        case Ok(uv) =>
          var member := uv.Int? && (g, uv.i) in env.members;
          if Guild(g) !in env.cache then Abort(MissingGuild(g))
          else if keys.role !in env.cache[Guild(g)] then Abort(KeyError(keys.role))
          else
            var rv := env.cache[Guild(g)][keys.role];
            var role := rv.Int? && (g, rv.i) in env.roles;
            if !role || !member then Skip
            else match Lookup(r, keys.end)
              case Err(e) => Abort(e)
              case Ok(Moment(t)) => Arm(Timer(g, uv.i, rv.i, t), r.id)
              case Ok(_) => Abort(TypeError)
  }

  lemma AppendAssoc<T>(a: seq<T>, b: seq<T>, c: seq<T>)
    ensures (a + b) + c == a + (b + c)
  {
  }

  /** What each of `records` does in the sweep's inner loop, in order. */
  function Steps(records: seq<MuteRecord>, env: SweepEnv, keys: SweepKeys): (steps: seq<RecordStep>)
    ensures |steps| == |records|
  {
    if records == [] then [] else [SweepRecord(records[0], env, keys)] + Steps(records[1..], env, keys)
  }

  lemma {:induction false} StepsAt(records: seq<MuteRecord>, env: SweepEnv, keys: SweepKeys, j: nat)
    requires j < |records|
    ensures Steps(records, env, keys)[j] == SweepRecord(records[j], env, keys)
  {
    if j > 0 {
      StepsAt(records[1..], env, keys, j - 1);
    }
  }

  /** What a sweep did: the timers armed and ids queued, in order, and the exception that ended it, if any. */
  datatype Outcome = Outcome(armed: seq<Timer>, ids: seq<int>, error: Option<Raised>)

  /**
   * The sweep's two nested loops as one recursion, carrying what was armed and
   * queued so far: `pending` holds the steps of the current guild's selected rows
   * not yet taken, `guilds` the guilds after it. An exception ends the sweep after
   * the rows before it; a guild with no selected rows ends the whole sweep
   * (`return`, not `continue`).
   */
  function SweepFrom(guilds: seq<GuildId>, pending: seq<RecordStep>, rows: seq<MuteRecord>, env: SweepEnv, keys: SweepKeys,
                     now: real, armed: seq<Timer>, ids: seq<int>): Outcome
    decreases |guilds|, |pending|
  {
    if pending != [] then
      match pending[0]
      case Abort(e) => Outcome(armed, ids, Some(e))
      case Skip => SweepFrom(guilds, pending[1..], rows, env, keys, now, armed, ids)
      case Arm(t, id) => SweepFrom(guilds, pending[1..], rows, env, keys, now, armed + [t], ids + [id])
    else if guilds == [] then Outcome(armed, ids, None)
    else
      var selected := Selected(rows, guilds[0], now);
      if selected == [] then Outcome(armed, ids, None)
      else SweepFrom(guilds[1..], Steps(selected, env, keys), rows, env, keys, now, armed, ids)
  }

  /** A whole sweep over the bot's guilds. */
  function SweepGuilds(guilds: seq<GuildId>, rows: seq<MuteRecord>, env: SweepEnv, keys: SweepKeys, now: real): Outcome {
    SweepFrom(guilds, [], rows, env, keys, now, [], [])
  }

  /** The outer loop's turn for guild `i`: the steps of its selected rows become the pending ones. */
  lemma GuildTurn(guilds: seq<GuildId>, i: nat, rows: seq<MuteRecord>, env: SweepEnv, keys: SweepKeys, now: real,
                  armed: seq<Timer>, ids: seq<int>)
    requires i < |guilds|
    ensures var selected := Selected(rows, guilds[i], now);
      SweepFrom(guilds[i..], [], rows, env, keys, now, armed, ids) ==
        if selected == [] then Outcome(armed, ids, None)
        else SweepFrom(guilds[i + 1..], Steps(selected, env, keys), rows, env, keys, now, armed, ids)
  {
    assert guilds[i..][0] == guilds[i] && guilds[i..][1..] == guilds[i + 1..];
  }

  /** The inner loop's turn for the row `j` of the guild, whose step is `records`' `j`-th. */
  lemma RecordTurn(guilds: seq<GuildId>, records: seq<MuteRecord>, j: nat, rows: seq<MuteRecord>, env: SweepEnv,
                   keys: SweepKeys, now: real, armed: seq<Timer>, ids: seq<int>)
    requires j < |records|
    ensures var pending := Steps(records, env, keys);
      var so := SweepFrom(guilds, pending[j..], rows, env, keys, now, armed, ids);
      match SweepRecord(records[j], env, keys)
      case Abort(e) => so == Outcome(armed, ids, Some(e))
      case Skip => so == SweepFrom(guilds, pending[j + 1..], rows, env, keys, now, armed, ids)
      case Arm(t, id) => so == SweepFrom(guilds, pending[j + 1..], rows, env, keys, now, armed + [t], ids + [id])
  {
    var pending := Steps(records, env, keys);
    StepsAt(records, env, keys, j);
    assert pending[j..][0] == pending[j] && pending[j..][1..] == pending[j + 1..];
  }

  /**
   * One run of `mute_pull`: arms and queues what the sweep found. An exception
   * escapes the task loop, which then stops: later runs do nothing.
   */
  function Sweep(s: MuteState, guilds: seq<GuildId>, env: SweepEnv, keys: SweepKeys, now: real): (Option<Raised>, MuteState) {
    if !s.polling then (None, s)
    else
      var out := SweepGuilds(guilds, s.mutes, env, keys, now);
      (out.error, s.(timers := s.timers + out.armed, queue := s.queue + out.ids, polling := out.error.None?))
  }

  /** What a running sweep leaves behind: the outcome's timers and ids appended, polling on iff no exception. */
  lemma SweepApplies(s: MuteState, guilds: seq<GuildId>, env: SweepEnv, keys: SweepKeys, now: real)
    requires s.polling
    ensures var out := SweepGuilds(guilds, s.mutes, env, keys, now);
      Sweep(s, guilds, env, keys, now) ==
        (out.error, MuteState(s.mutes, s.holders, s.queue + out.ids, s.timers + out.armed, s.nextId, out.error.None?))
  {
  }

  /** The guild-side inputs of `mute` and `unmute`. */
  datatype GuildContext = GuildContext(id: GuildId, cache: Cache, roles: map<RoleId, Role>, botTop: Role)

  /** `ctx.guild.get_role(ctx.cache.get("muteid"))`; a guild missing from the cache raises KeyError. */
  function MutedRole(ctx: GuildContext): Result<Option<Role>, Raised> {
    if Guild(ctx.id) !in ctx.cache then Err(MissingGuild(ctx.id))
    else
      var row := ctx.cache[Guild(ctx.id)];
      if "muteid" in row && row["muteid"].Int? && row["muteid"].i in ctx.roles then Ok(Some(ctx.roles[row["muteid"].i]))
      else Ok(None)
  }

  const MuteNoRoleMessage := "I cannot find the muted role in the config, this is probably because the role was deleted."
  const UnmuteNoRoleMessage :=
    "I cannot find the muted role in the config, this is probably because the role was deleted or you haven't set it up."
  const RoleAboveBotMessage :=
    "The muted role is greater than or equal to my top role in the hierarchy, please move my role above it."
  const NotMutedMessage := "That user doesn't seem to have the `muted` role set in the config."

  /** The checks `mute` and `unmute` share: the muted role must resolve and sit below the bot's top role. */
  function UsableRole(ctx: GuildContext, noRoleMessage: string): (r: Result<Role, Raised>)
    ensures r.Ok? <==> MutedRole(ctx).Ok? && MutedRole(ctx).value.Some? && !RoleAtLeast(MutedRole(ctx).value.value, ctx.botTop)
    ensures r.Ok? ==> r.value == MutedRole(ctx).value.value
    ensures MutedRole(ctx).Ok? && MutedRole(ctx).value.None? ==> r == Err(BadArgument(noRoleMessage))
  {
    match MutedRole(ctx)
    case Err(e) => Err(e)
    case Ok(None) => Err(BadArgument(noRoleMessage))
    case Ok(Some(role)) => if RoleAtLeast(role, ctx.botTop) then Err(BadArgument(RoleAboveBotMessage)) else Ok(role)
  }

  /**
   * `mute`: with a usable role, an existing mute is lifted first (role removed,
   * rows deleted); a timer is armed iff the mute ends within 1800 s of now; then
   * one row is inserted and the role added. Armed timers are never cancelled.
   */
  function Mute(s: MuteState, ctx: GuildContext, member: UserId, now: real, time: real, reason: string): (r: (Option<Raised>, MuteState))
    ensures UsableRole(ctx, MuteNoRoleMessage).Err? ==> r == (Some(UsableRole(ctx, MuteNoRoleMessage).error), s)
    ensures UsableRole(ctx, MuteNoRoleMessage).Ok? ==>
      var role := UsableRole(ctx, MuteNoRoleMessage).value;
      var h := Holding(ctx.id, member, role.id);
      r.0 == None && r.1.holders == s.holders + {h} && r.1.queue == s.queue && r.1.polling == s.polling &&
      r.1.nextId == s.nextId + 1 &&
      r.1.mutes == (if h in s.holders then DeleteFor(s.mutes, ctx.id, member) else s.mutes)
                   + [MuteRecord(s.nextId, member, ctx.id, now, time, reason)] &&
      r.1.timers == s.timers + (if time - now <= DirectArm then [Timer(ctx.id, member, role.id, time)] else [])
  {
    match UsableRole(ctx, MuteNoRoleMessage)
    case Err(e) => (Some(e), s)
    case Ok(role) =>
      var h := Holding(ctx.id, member, role.id);
      var lifted := if h in s.holders then s.(holders := s.holders - {h}, mutes := DeleteFor(s.mutes, ctx.id, member)) else s;
      var armed := if time - now <= DirectArm then lifted.(timers := lifted.timers + [Timer(ctx.id, member, role.id, time)]) else lifted;
      (None, armed.(mutes := armed.mutes + [MuteRecord(armed.nextId, member, ctx.id, now, time, reason)],
                    nextId := armed.nextId + 1, holders := armed.holders + {h}))
  }

  /** `unmute`: with a usable role that the member holds, the role is removed and their rows deleted; otherwise it raises. */
  function Unmute(s: MuteState, ctx: GuildContext, member: UserId): (r: (Option<Raised>, MuteState))
    ensures r.0.Some? ==> r.1 == s
    ensures r.0.None? <==> (UsableRole(ctx, UnmuteNoRoleMessage).Ok? &&
      Holding(ctx.id, member, UsableRole(ctx, UnmuteNoRoleMessage).value.id) in s.holders)
    ensures r.0.None? ==>
      r.1 == s.(holders := s.holders - {Holding(ctx.id, member, UsableRole(ctx, UnmuteNoRoleMessage).value.id)},
                mutes := DeleteFor(s.mutes, ctx.id, member))
    ensures UsableRole(ctx, UnmuteNoRoleMessage).Ok? && r.0.Some? ==> r.0 == Some(BadArgument(NotMutedMessage))
  {
    match UsableRole(ctx, UnmuteNoRoleMessage)
    case Err(e) => (Some(e), s)
    case Ok(role) =>
      var h := Holding(ctx.id, member, role.id);
      if h in s.holders then (None, s.(holders := s.holders - {h}, mutes := DeleteFor(s.mutes, ctx.id, member)))
      else (Some(BadArgument(NotMutedMessage)), s)
  }

  /** How `member.remove_roles` ended: done, Forbidden (suppressed), or another HTTP error (not suppressed). */
  datatype Removal = Removed | Forbidden | HttpError

  /**
   * `perform_unmute` for the timer at index `k`, once the clock reached its time:
   * the role removal, then the delete of every row of that member in that guild,
   * unless a non-Forbidden error ended the task first. The queue is untouched
   * because no caller passes a record.
   */
  function Fire(s: MuteState, k: nat, now: real, removal: Removal): (r: MuteState)
    requires k < |s.timers| && s.timers[k].when <= now
    ensures r.timers == s.timers[..k] + s.timers[k + 1..] && r.queue == s.queue && r.nextId == s.nextId
    ensures r.polling == s.polling
    ensures var t := s.timers[k];
      (removal == Removed ==>
         r.mutes == DeleteFor(s.mutes, t.guild, t.user) && r.holders == s.holders - {Holding(t.guild, t.user, t.role)}) &&
      (removal == Removal.Forbidden ==> r.mutes == DeleteFor(s.mutes, t.guild, t.user) && r.holders == s.holders) &&
      (removal == HttpError ==> r.mutes == s.mutes && r.holders == s.holders)
  {
    var t := s.timers[k];
    var rest := s.timers[..k] + s.timers[k + 1..];
    match removal
    case Removed => s.(timers := rest, holders := s.holders - {Holding(t.guild, t.user, t.role)},
                       mutes := DeleteFor(s.mutes, t.guild, t.user))
    case Forbidden => s.(timers := rest, mutes := DeleteFor(s.mutes, t.guild, t.user))
    case HttpError => s.(timers := rest)
  }

  /** Firing after the role was removed or refused leaves no row of that member in that guild, and every other row. */
  lemma FireClearsMember(s: MuteState, k: nat, now: real, removal: Removal, r: MuteRecord)
    requires k < |s.timers| && s.timers[k].when <= now && removal != HttpError
    ensures var t := s.timers[k];
      r in Fire(s, k, now, removal).mutes <==> r in s.mutes && !(r.guildid == t.guild && r.userid == t.user)
    ensures removal == Removed ==> Holding(s.timers[k].guild, s.timers[k].user, s.timers[k].role) !in Fire(s, k, now, removal).holders
  {
    DeleteForSpec(s.mutes, s.timers[k].guild, s.timers[k].user, r);
  }

  /**
   * A removal that fails with another HTTP error (the member left, say) escapes
   * before the delete: the member's row stays, and since its end has passed no
   * later sweep ever selects it again.
   */
  lemma FailedRemovalOrphansRow(s: MuteState, k: nat, now: real, later: real, removal: Removal, r: MuteRecord, g: GuildId)
    requires k < |s.timers| && s.timers[k].when <= now <= later && removal == HttpError
    requires r in s.mutes && r.endtime <= s.timers[k].when
    ensures r in Fire(s, k, now, removal).mutes
    ensures r !in Selected(Fire(s, k, now, removal).mutes, g, later)
  {
    SelectedIff(Fire(s, k, now, removal).mutes, g, later, r);
  }

  /** The queue only grows: no transition removes an id. */
  lemma QueueOnlyGrows(s: MuteState, ctx: GuildContext, member: UserId, now: real, time: real, reason: string,
                       guilds: seq<GuildId>, env: SweepEnv, keys: SweepKeys, k: nat, removal: Removal)
    ensures s.queue <= Mute(s, ctx, member, now, time, reason).1.queue
    ensures s.queue <= Unmute(s, ctx, member).1.queue
    ensures s.queue <= Sweep(s, guilds, env, keys, now).1.queue
    ensures k < |s.timers| && s.timers[k].when <= now ==> s.queue <= Fire(s, k, now, removal).queue
  {
  }

  /** Every transition keeps the ids below the serial counter and pairwise distinct. */
  lemma TransitionsKeepValid(s: MuteState, ctx: GuildContext, member: UserId, now: real, time: real, reason: string,
                             guilds: seq<GuildId>, env: SweepEnv, keys: SweepKeys, k: nat, removal: Removal)
    requires Valid(s)
    ensures Valid(Mute(s, ctx, member, now, time, reason).1)
    ensures Valid(Unmute(s, ctx, member).1)
    ensures Valid(Sweep(s, guilds, env, keys, now).1)
    ensures k < |s.timers| && s.timers[k].when <= now ==> Valid(Fire(s, k, now, removal))
  {
    DeleteForKeepsIds(s.mutes, ctx.id, member, s.nextId);
    MuteKeepsValid(s, ctx, member, now, time, reason);
    if k < |s.timers| && s.timers[k].when <= now {
      DeleteForKeepsIds(s.mutes, s.timers[k].guild, s.timers[k].user, s.nextId);
    }
  }

  /** The row a mute inserts takes the counter's id, which no kept row has, and the counter moves past it. */
  lemma MuteKeepsValid(s: MuteState, ctx: GuildContext, member: UserId, now: real, time: real, reason: string)
    requires Valid(s)
    ensures Valid(Mute(s, ctx, member, now, time, reason).1)
  {
    if UsableRole(ctx, MuteNoRoleMessage).Ok? {
      var kept := if Holding(ctx.id, member, UsableRole(ctx, MuteNoRoleMessage).value.id) in s.holders
                  then DeleteFor(s.mutes, ctx.id, member) else s.mutes;
      DeleteForKeepsIds(s.mutes, ctx.id, member, s.nextId);
      var rows := kept + [MuteRecord(s.nextId, member, ctx.id, now, time, reason)];
      assert Mute(s, ctx, member, now, time, reason).1.mutes == rows;
      forall i, j | 0 <= i < j < |rows| ensures rows[i].id != rows[j].id {
        assert rows[i] == kept[i];
        if j < |kept| { assert rows[j] == kept[j]; }
      }
    }
  }

  /** A successful mute arms a timer iff its end is at most 1800 s away, and keeps every timer already armed. */
  lemma MuteArmsIff(s: MuteState, ctx: GuildContext, member: UserId, now: real, time: real, reason: string)
    requires Mute(s, ctx, member, now, time, reason).0.None?
    ensures var t := Mute(s, ctx, member, now, time, reason).1.timers;
      s.timers <= t && (|t| == |s.timers| + 1 <==> time - now <= DirectArm) && |t| <= |s.timers| + 1
    ensures |Mute(s, ctx, member, now, time, reason).1.mutes| >= 1
    ensures Mute(s, ctx, member, now, time, reason).1.mutes[|Mute(s, ctx, member, now, time, reason).1.mutes| - 1]
      == MuteRecord(s.nextId, member, ctx.id, now, time, reason)
  {
  }

  /** As written, the very first selected row raises KeyError("guildId"): no sweep arms or queues anything. */
  lemma AsWrittenSweepArmsNothing(guilds: seq<GuildId>, rows: seq<MuteRecord>, env: SweepEnv, now: real)
    ensures SweepGuilds(guilds, rows, env, AsWrittenKeys, now).armed == []
    ensures SweepGuilds(guilds, rows, env, AsWrittenKeys, now).ids == []
    ensures SweepGuilds(guilds, rows, env, AsWrittenKeys, now).error ==
      if guilds != [] && Selected(rows, guilds[0], now) != [] then Some(KeyError("guildId")) else None
  {
    if guilds != [] && Selected(rows, guilds[0], now) != [] {
      var selected := Selected(rows, guilds[0], now);
      var steps := Steps(selected, env, AsWrittenKeys);
      StepsAt(selected, env, AsWrittenKeys, 0);
      assert steps[0] == Abort(KeyError("guildId"));
      assert SweepGuilds(guilds, rows, env, AsWrittenKeys, now) == SweepFrom(guilds[1..], steps, rows, env, AsWrittenKeys, now, [], []);
    }
  }

  /** As written, a sweep that finds a due row stops the task loop for good, and the state keeps no new timer. */
  lemma AsWrittenSweepStopsPolling(s: MuteState, guilds: seq<GuildId>, env: SweepEnv, now: real)
    requires s.polling && guilds != [] && Selected(s.mutes, guilds[0], now) != []
    ensures Sweep(s, guilds, env, AsWrittenKeys, now).0 == Some(KeyError("guildId"))
    ensures Sweep(s, guilds, env, AsWrittenKeys, now).1 == s.(polling := false)
  {
    AsWrittenSweepArmsNothing(guilds, s.mutes, env, now);
  }

  /**
   * With the intended keys, a restart recovers a pending mute: a due row whose
   * member and muted role resolve is armed with its own end time and its id queued.
   */
  lemma IntendedSweepArmsDueRow(guilds: seq<GuildId>, rows: seq<MuteRecord>, env: SweepEnv, now: real, r: MuteRecord, role: RoleId)
    requires guilds != [] && guilds[0] == r.guildid && Selected(rows, r.guildid, now) == [r]
    requires r.guildid in env.guilds && (r.guildid, r.userid) in env.members
    requires Guild(r.guildid) in env.cache && "muteid" in env.cache[Guild(r.guildid)]
    requires env.cache[Guild(r.guildid)]["muteid"] == Int(role) && (r.guildid, role) in env.roles
    ensures var out := SweepGuilds(guilds, rows, env, IntendedKeys, now);
      |out.armed| >= 1 && out.armed[0] == Timer(r.guildid, r.userid, role, r.endtime) &&
      |out.ids| >= 1 && out.ids[0] == r.id
  {
    var t := Timer(r.guildid, r.userid, role, r.endtime);
    assert SweepRecord(r, env, IntendedKeys) == Arm(t, r.id);
    var steps := Steps([r], env, IntendedKeys);
    StepsAt([r], env, IntendedKeys, 0);
    assert steps[1..] == [] && steps[0] == Arm(t, r.id);
    assert [] + [t] == [t] && [] + [r.id] == [r.id];
    assert SweepGuilds(guilds, rows, env, IntendedKeys, now) == SweepFrom(guilds[1..], steps, rows, env, IntendedKeys, now, [], []);
    assert SweepFrom(guilds[1..], steps, rows, env, IntendedKeys, now, [], [])
        == SweepFrom(guilds[1..], [], rows, env, IntendedKeys, now, [t], [r.id]);
    SweepKeepsCollected(guilds[1..], [], rows, env, IntendedKeys, now, [t], [r.id]);
  }

  /** The sweep only adds to what it has collected. */
  lemma {:induction false} SweepKeepsCollected(guilds: seq<GuildId>, pending: seq<RecordStep>, rows: seq<MuteRecord>,
                                               env: SweepEnv, keys: SweepKeys, now: real, armed: seq<Timer>, ids: seq<int>)
    ensures armed <= SweepFrom(guilds, pending, rows, env, keys, now, armed, ids).armed
    ensures ids <= SweepFrom(guilds, pending, rows, env, keys, now, armed, ids).ids
    decreases |guilds|, |pending|
  {
    if pending != [] {
      match pending[0]
      case Abort(e) =>
      case Skip => SweepKeepsCollected(guilds, pending[1..], rows, env, keys, now, armed, ids);
      case Arm(t, id) => SweepKeepsCollected(guilds, pending[1..], rows, env, keys, now, armed + [t], ids + [id]);
    } else if guilds != [] && Selected(rows, guilds[0], now) != [] {
      SweepKeepsCollected(guilds[1..], Steps(Selected(rows, guilds[0], now), env, keys), rows, env, keys, now, armed, ids);
    }
  }

  /** With the intended keys, a row whose member or muted role does not resolve is skipped, not armed. */
  lemma UnresolvedRowSkipped(r: MuteRecord, env: SweepEnv)
    requires r.guildid in env.guilds && Guild(r.guildid) in env.cache && "muteid" in env.cache[Guild(r.guildid)]
    requires var rv := env.cache[Guild(r.guildid)]["muteid"];
      (r.guildid, r.userid) !in env.members || !(rv.Int? && (r.guildid, rv.i) in env.roles)
    ensures SweepRecord(r, env, IntendedKeys) == Skip
  {
  }

  /** `t` and `id` were armed from a due row of `rows` whose member and cached muted role resolve. */
  ghost predicate ArmedFrom(t: Timer, id: int, rows: seq<MuteRecord>, env: SweepEnv, now: real) {
    exists r :: r in rows && r.id == id && t == Timer(r.guildid, r.userid, t.role, r.endtime)
      && now < r.endtime < now + PollPeriod
      && r.guildid in env.guilds && (r.guildid, r.userid) in env.members && (r.guildid, t.role) in env.roles
      && Guild(r.guildid) in env.cache && "muteid" in env.cache[Guild(r.guildid)]
      && env.cache[Guild(r.guildid)]["muteid"] == Int(t.role)
  }

  ghost predicate AllArmedFrom(armed: seq<Timer>, ids: seq<int>, rows: seq<MuteRecord>, env: SweepEnv, now: real) {
    |armed| == |ids| && forall k :: 0 <= k < |armed| ==> ArmedFrom(armed[k], ids[k], rows, env, now)
  }

  ghost predicate PendingFrom(pending: seq<RecordStep>, rows: seq<MuteRecord>, env: SweepEnv, now: real) {
    forall k :: 0 <= k < |pending| && pending[k].Arm? ==> ArmedFrom(pending[k].timer, pending[k].id, rows, env, now)
  }

  /** The intended keys arm a row only with its own member, guild and end time, once both resolve. */
  lemma ArmedRecord(r: MuteRecord, env: SweepEnv)
    requires SweepRecord(r, env, IntendedKeys).Arm?
    ensures var step := SweepRecord(r, env, IntendedKeys);
      step.id == r.id && step.timer == Timer(r.guildid, r.userid, step.timer.role, r.endtime)
      && r.guildid in env.guilds && (r.guildid, r.userid) in env.members && (r.guildid, step.timer.role) in env.roles
      && Guild(r.guildid) in env.cache && "muteid" in env.cache[Guild(r.guildid)]
      && env.cache[Guild(r.guildid)]["muteid"] == Int(step.timer.role)
  {
  }

  lemma SelectedSteps(rows: seq<MuteRecord>, g: GuildId, env: SweepEnv, now: real)
    ensures PendingFrom(Steps(Selected(rows, g, now), env, IntendedKeys), rows, env, now)
  {
    var selected := Selected(rows, g, now);
    var steps := Steps(selected, env, IntendedKeys);
    forall k | 0 <= k < |steps| && steps[k].Arm?
      ensures ArmedFrom(steps[k].timer, steps[k].id, rows, env, now)
    {
      StepsAt(selected, env, IntendedKeys, k);
      var r := selected[k];
      ArmedRecord(r, env);
      SelectedIff(rows, g, now, r);
    }
  }

  lemma {:induction false} SweepArmsFromDueRows(guilds: seq<GuildId>, pending: seq<RecordStep>, rows: seq<MuteRecord>,
                                                env: SweepEnv, now: real, armed: seq<Timer>, ids: seq<int>)
    requires AllArmedFrom(armed, ids, rows, env, now) && PendingFrom(pending, rows, env, now)
    ensures var out := SweepFrom(guilds, pending, rows, env, IntendedKeys, now, armed, ids);
      AllArmedFrom(out.armed, out.ids, rows, env, now)
    decreases |guilds|, |pending|
  {
    var keys := IntendedKeys;
    if pending != [] {
      assert PendingFrom(pending[1..], rows, env, now) by {
        forall k | 0 <= k < |pending[1..]| && pending[1..][k].Arm?
          ensures ArmedFrom(pending[1..][k].timer, pending[1..][k].id, rows, env, now)
        {
          assert pending[1..][k] == pending[k + 1];
        }
      }
      match pending[0]
      case Abort(e) =>
      case Skip => SweepArmsFromDueRows(guilds, pending[1..], rows, env, now, armed, ids);
      case Arm(t, id) =>
        assert pending[0].Arm?;
        assert AllArmedFrom(armed + [t], ids + [id], rows, env, now) by {
          forall k | 0 <= k < |armed + [t]|
            ensures ArmedFrom((armed + [t])[k], (ids + [id])[k], rows, env, now)
          {
            if k == |armed| {
              assert (armed + [t])[k] == pending[0].timer && (ids + [id])[k] == pending[0].id;
            } else {
              assert (armed + [t])[k] == armed[k] && (ids + [id])[k] == ids[k];
            }
          }
        }
        SweepArmsFromDueRows(guilds, pending[1..], rows, env, now, armed + [t], ids + [id]);
    } else if guilds != [] && Selected(rows, guilds[0], now) != [] {
      SelectedSteps(rows, guilds[0], env, now);
      SweepArmsFromDueRows(guilds[1..], Steps(Selected(rows, guilds[0], now), env, keys), rows, env, now, armed, ids);
    }
  }

  /**
   * Every timer a sweep with the intended keys arms comes, with its queued id, from
   * a row due inside the window whose member and muted role resolve: a row outside
   * the window or one that does not resolve is never armed.
   */
  lemma IntendedSweepArmsOnlyDueRows(guilds: seq<GuildId>, rows: seq<MuteRecord>, env: SweepEnv, now: real)
    ensures var out := SweepGuilds(guilds, rows, env, IntendedKeys, now);
      |out.armed| == |out.ids| && forall k :: 0 <= k < |out.armed| ==> ArmedFrom(out.armed[k], out.ids[k], rows, env, now)
  {
    SweepArmsFromDueRows(guilds, [], rows, env, now, [], []);
  }

  /** A guild with no selected rows ends the sweep: the guilds after it are never examined. */
  lemma {:induction false} SweepEndsAtEmptyGuild(guilds: seq<GuildId>, i: nat, pending: seq<RecordStep>, rows: seq<MuteRecord>,
                                                 env: SweepEnv, keys: SweepKeys, now: real, armed: seq<Timer>, ids: seq<int>)
    requires i < |guilds| && Selected(rows, guilds[i], now) == []
    ensures SweepFrom(guilds, pending, rows, env, keys, now, armed, ids) ==
            SweepFrom(guilds[..i], pending, rows, env, keys, now, armed, ids)
    decreases |guilds|, |pending|
  {
    if pending != [] {
      match pending[0]
      case Abort(e) =>
      case Skip => SweepEndsAtEmptyGuild(guilds, i, pending[1..], rows, env, keys, now, armed, ids);
      case Arm(t, id) => SweepEndsAtEmptyGuild(guilds, i, pending[1..], rows, env, keys, now, armed + [t], ids + [id]);
    } else if i > 0 && Selected(rows, guilds[0], now) != [] {
      assert guilds[..i][0] == guilds[0] && guilds[..i][1..] == guilds[1..][..i - 1];
      SweepEndsAtEmptyGuild(guilds[1..], i - 1, Steps(Selected(rows, guilds[0], now), env, keys), rows, env, keys, now, armed, ids);
    } else if i > 0 {
      assert guilds[..i][0] == guilds[0];
    }
  }

  /** Appending guilds after an empty one changes nothing about a whole sweep. */
  lemma LaterGuildsIgnored(guilds: seq<GuildId>, later: seq<GuildId>, rows: seq<MuteRecord>, env: SweepEnv, keys: SweepKeys, now: real)
    requires guilds != [] && Selected(rows, guilds[|guilds| - 1], now) == []
    ensures SweepGuilds(guilds + later, rows, env, keys, now) == SweepGuilds(guilds, rows, env, keys, now)
  {
    var i := |guilds| - 1;
    assert (guilds + later)[i] == guilds[i];
    SweepEndsAtEmptyGuild(guilds + later, i, [], rows, env, keys, now, [], []);
    SweepEndsAtEmptyGuild(guilds, i, [], rows, env, keys, now, [], []);
    assert (guilds + later)[..i] == guilds[..i];
  }

  /**
   * A stale timer ends a newer mute: a short mute arms a timer; a re-mute for
   * longer than 1800 s arms none and keeps the old timer; when that timer fires,
   * the member loses the role and every row, the re-mute's row included.
   */
  lemma StaleTimerEndsNewerMute(s: MuteState, ctx: GuildContext, member: UserId, now1: real, time1: real,
                                now2: real, time2: real, reason: string)
    requires UsableRole(ctx, MuteNoRoleMessage).Ok?
    requires time1 - now1 <= DirectArm && time2 - now2 > DirectArm && time1 <= now2
    ensures var s1 := Mute(s, ctx, member, now1, time1, reason).1;
      var s2 := Mute(s1, ctx, member, now2, time2, reason).1;
      |s2.timers| == |s.timers| + 1 && s2.timers[|s.timers|].when == time1 &&
      MuteRecord(s1.nextId, member, ctx.id, now2, time2, reason) in s2.mutes &&
      var s3 := Fire(s2, |s.timers|, now2, Removed);
      (forall r :: r in s3.mutes ==> !(r.guildid == ctx.id && r.userid == member)) &&
      Holding(ctx.id, member, UsableRole(ctx, MuteNoRoleMessage).value.id) !in s3.holders
  {
    var s1 := Mute(s, ctx, member, now1, time1, reason).1;
    var s2 := Mute(s1, ctx, member, now2, time2, reason).1;
    assert s2.timers == s1.timers;
    var s3 := Fire(s2, |s.timers|, now2, Removed);
    forall r | r in s3.mutes ensures !(r.guildid == ctx.id && r.userid == member) {
      DeleteForSpec(s2.mutes, ctx.id, member, r);
    }
  }

  /** `mute` and `unmute` change nothing when they raise. */
  lemma ErrorsChangeNothing(s: MuteState, ctx: GuildContext, member: UserId, now: real, time: real, reason: string)
    ensures Mute(s, ctx, member, now, time, reason).0.Some? ==> Mute(s, ctx, member, now, time, reason).1 == s
    ensures Unmute(s, ctx, member).0.Some? ==> Unmute(s, ctx, member).1 == s
  {
  }
}
