/**
 * The moderator cog's mute bookkeeping as an object: the `mutes` table, the
 * members holding the muted role, the id queue, the armed timers and the task
 * loop flag are fields its commands and tasks update in place. Each method is
 * proved to take the state to what the matching transition in `Mutes` gives.
 */
module Moderator {
  import opened Wrappers
  import opened Records
  import opened Mutes

  class ModeratorCog {
    var mutes: seq<MuteRecord>
    var holders: set<Holding>
    var queue: seq<int>
    var timers: seq<Timer>
    var nextId: int
    var polling: bool

    function State(): MuteState
      reads this
    {
      MuteState(mutes, holders, queue, timers, nextId, polling)
    }

    /** The cog is loaded over an existing table: no queue, no timer, the sweep loop started. */
    constructor (mutes: seq<MuteRecord>, holders: set<Holding>, nextId: int)
      requires forall i :: 0 <= i < |mutes| ==> mutes[i].id < nextId
      requires forall i, j :: 0 <= i < j < |mutes| ==> mutes[i].id != mutes[j].id
      ensures State() == MuteState(mutes, holders, [], [], nextId, true)
      ensures Valid(State())
    {
      this.mutes := mutes;
      this.holders := holders;
      this.queue := [];
      this.timers := [];
      this.nextId := nextId;
      this.polling := true;
    }

    /** The `mute` command. */
    method Mute(ctx: GuildContext, member: UserId, now: real, time: real, reason: string) returns (error: Option<Raised>)
      modifies this
      ensures (error, State()) == Mutes.Mute(old(State()), ctx, member, now, time, reason)
    {
      var found := UsableRole(ctx, MuteNoRoleMessage);
      if found.Err? {
        return Some(found.error);
      }
      var role := found.value;
      var h := Holding(ctx.id, member, role.id);
      if h in holders {
        holders := holders - {h};
        mutes := DeleteFor(mutes, ctx.id, member);
      }
      if time - now <= DirectArm {
        timers := timers + [Timer(ctx.id, member, role.id, time)];
      }
      mutes := mutes + [MuteRecord(nextId, member, ctx.id, now, time, reason)];
      nextId := nextId + 1;
      holders := holders + {h};
      error := None;
    }

    /** The `unmute` command. */
    method Unmute(ctx: GuildContext, member: UserId) returns (error: Option<Raised>)
      modifies this
      ensures (error, State()) == Mutes.Unmute(old(State()), ctx, member)
    {
      var found := UsableRole(ctx, UnmuteNoRoleMessage);
      if found.Err? {
        return Some(found.error);
      }
      var h := Holding(ctx.id, member, found.value.id);
      if h in holders {
        holders := holders - {h};
        mutes := DeleteFor(mutes, ctx.id, member);
        error := None;
      } else {
        error := Some(BadArgument(NotMutedMessage));
      }
    }

    /** `perform_unmute` for the timer at index `k`, run once the clock reached its time. */
    method PerformUnmute(k: nat, now: real, removal: Removal)
      requires k < |timers| && timers[k].when <= now
      modifies this
      ensures State() == Fire(old(State()), k, now, removal)
    {
      var t := timers[k];
      timers := timers[..k] + timers[k + 1..];
      if removal == HttpError {
        return;
      }
      if removal == Removed {
        holders := holders - {Holding(t.guild, t.user, t.role)};
      }
      mutes := DeleteFor(mutes, t.guild, t.user);
    }

    /**
     * One iteration of the task loop running `mute_pull`: nothing once the loop
     * has stopped; an exception escaping the body stops it.
     */
    method PollMutes(guilds: seq<GuildId>, env: SweepEnv, keys: SweepKeys, now: real) returns (error: Option<Raised>)
      modifies this
      ensures (error, State()) == Sweep(old(State()), guilds, env, keys, now)
    {
      if !polling {
        return None;
      }
      SweepApplies(State(), guilds, env, keys, now);
      error := MutePull(guilds, env, keys, now);
      if error.Some? {
        polling := false;
      }
    }

    /**
     * The body of `mute_pull`, reading each row under `keys`: `AsWrittenKeys` are the
     * names the loop uses, `IntendedKeys` the columns the table has.
     */
    method MutePull(guilds: seq<GuildId>, env: SweepEnv, keys: SweepKeys, now: real) returns (error: Option<Raised>)
      modifies this
      ensures var out := SweepGuilds(guilds, old(mutes), env, keys, now);
        error == out.error && timers == old(timers) + out.armed && queue == old(queue) + out.ids &&
        mutes == old(mutes) && holders == old(holders) && nextId == old(nextId) && polling == old(polling)
    {
      var rows := mutes;
      ghost var whole := SweepGuilds(guilds, rows, env, keys, now);
      ghost var armed: seq<Timer> := [];
      ghost var ids: seq<int> := [];
      assert guilds[0..] == guilds;
      assert timers == old(timers) + armed && queue == old(queue) + ids;
      error := None;
      var i := 0;
      while i < |guilds|
        invariant 0 <= i <= |guilds|
        invariant mutes == rows && holders == old(holders) && nextId == old(nextId) && polling == old(polling) && error == None
        invariant timers == old(timers) + armed && queue == old(queue) + ids
        invariant whole == SweepFrom(guilds[i..], [], rows, env, keys, now, armed, ids)
      {
        var selected := Selected(rows, guilds[i], now);
        GuildTurn(guilds, i, rows, env, keys, now, armed, ids);
        if selected == [] {
          break;
        }
        ghost var more: seq<Timer>, moreIds: seq<int>;
        error, more, moreIds := PullRecords(selected, env, keys, guilds[i + 1..], rows, now, armed, ids);
        AppendAssoc(old(timers), armed, more);
        AppendAssoc(old(queue), ids, moreIds);
        armed, ids := armed + more, ids + moreIds;
        if error.Some? {
          break;
        }
        i := i + 1;
      }
      if i == |guilds| && error == None {
        assert guilds[i..] == [];
      }
      assert whole == Outcome(armed, ids, error);
    }

    /**
     * The inner loop of `mute_pull` over one guild's selected rows, after `armed0`
     * and `ids0` were collected; `later` are the guilds still to come.
     */
    method PullRecords(selected: seq<MuteRecord>, env: SweepEnv, keys: SweepKeys, ghost later: seq<GuildId>,
                       ghost rows: seq<MuteRecord>, now: real, ghost armed0: seq<Timer>, ghost ids0: seq<int>)
      returns (error: Option<Raised>, ghost armed: seq<Timer>, ghost ids: seq<int>)
      modifies this
      ensures mutes == old(mutes) && holders == old(holders) && nextId == old(nextId) && polling == old(polling)
      ensures timers == old(timers) + armed && queue == old(queue) + ids
      ensures SweepFrom(later, Steps(selected, env, keys), rows, env, keys, now, armed0, ids0) ==
        if error.Some? then Outcome(armed0 + armed, ids0 + ids, error)
        else SweepFrom(later, [], rows, env, keys, now, armed0 + armed, ids0 + ids)
    {
      ghost var steps := Steps(selected, env, keys);
      assert steps[0..] == steps;
      armed, ids := [], [];
      assert armed0 + armed == armed0 && ids0 + ids == ids0;
      var j := 0;
      while j < |selected|
        invariant 0 <= j <= |selected|
        invariant mutes == old(mutes) && holders == old(holders) && nextId == old(nextId) && polling == old(polling)
        invariant timers == old(timers) + armed && queue == old(queue) + ids
        invariant SweepFrom(later, steps, rows, env, keys, now, armed0, ids0) ==
          SweepFrom(later, steps[j..], rows, env, keys, now, armed0 + armed, ids0 + ids)
      {
        RecordTurn(later, selected, j, rows, env, keys, now, armed0 + armed, ids0 + ids);
        match SweepRecord(selected[j], env, keys) {
          case Abort(e) =>
            return Some(e), armed, ids;
          case Skip =>
          case Arm(t, id) =>
            AppendAssoc(armed0, armed, [t]);
            AppendAssoc(ids0, ids, [id]);
            AppendAssoc(old(timers), armed, [t]);
            AppendAssoc(old(queue), ids, [id]);
            timers := timers + [t];
            queue := queue + [id];
            armed := armed + [t];
            ids := ids + [id];
        }
        j := j + 1;
      }
      assert steps[j..] == [];
      error := None;
    }
  }
}
