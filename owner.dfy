/** The owner-only commands: reloading all extensions, the blacklist, deleting a message. */
module Owner {
  import opened Wrappers
  import opened Text
  import opened Records
  import Bot

  const ThumbsUp := "\U{1F44D}"
  const ThumbsDown := "\U{1F44E}"

  /** The extensions whose reload succeeds (`ok`) or fails (`!ok`), in their original order. */
  function Reloaded(extensions: seq<string>, fails: set<string>, ok: bool): seq<string> {
    if extensions == [] then []
    else
      var last := extensions[|extensions| - 1];
      Reloaded(extensions[..|extensions| - 1], fails, ok) + (if (last !in fails) == ok then [last] else [])
  }

  lemma ReloadedSnoc(extensions: seq<string>, cog: string, fails: set<string>, ok: bool)
    ensures Reloaded(extensions + [cog], fails, ok) == Reloaded(extensions, fails, ok) + (if (cog !in fails) == ok then [cog] else [])
  {
    assert (extensions + [cog])[..|extensions|] == extensions;
  }

  /**
   * `reload_all`: each extension is reloaded in turn; `fails` holds those whose
   * reload raises. Every extension lands in exactly one list.
   */
  method ReloadAll(extensions: seq<string>, fails: set<string>) returns (successful: seq<string>, unsuccessful: seq<string>)
    ensures successful == Reloaded(extensions, fails, true)
    ensures unsuccessful == Reloaded(extensions, fails, false)
    ensures multiset(successful) + multiset(unsuccessful) == multiset(extensions)
  {
    successful, unsuccessful := [], [];
    var i := 0;
    while i < |extensions|
      invariant 0 <= i <= |extensions|
      invariant successful == Reloaded(extensions[..i], fails, true)
      invariant unsuccessful == Reloaded(extensions[..i], fails, false)
    {
      var cog := extensions[i];
      assert extensions[..i + 1] == extensions[..i] + [cog];
      ReloadedSnoc(extensions[..i], cog, fails, true);
      ReloadedSnoc(extensions[..i], cog, fails, false);
      if cog !in fails {
        successful := successful + [cog];
      } else {
        unsuccessful := unsuccessful + [cog];
      }
      i := i + 1;
    }
    assert extensions[..i] == extensions;
    ReloadedSplits(extensions, fails);
  }

  /** The two lists together hold every extension exactly as often as the extension list does. */
  lemma {:induction false} ReloadedSplits(extensions: seq<string>, fails: set<string>)
    ensures multiset(Reloaded(extensions, fails, true)) + multiset(Reloaded(extensions, fails, false)) == multiset(extensions)
  {
    if extensions != [] {
      var init, last := extensions[..|extensions| - 1], extensions[|extensions| - 1];
      ReloadedSplits(init, fails);
      assert extensions == init + [last];
    }
  }

  /** An extension is in a list iff it was loaded and its reload had that result. */
  lemma {:induction false} ReloadedMembers(extensions: seq<string>, fails: set<string>, ok: bool, e: string)
    ensures e in Reloaded(extensions, fails, ok) <==> e in extensions && (e !in fails <==> ok)
  {
    if extensions != [] {
      var init, last := extensions[..|extensions| - 1], extensions[|extensions| - 1];
      ReloadedMembers(init, fails, ok, e);
      assert extensions == init + [last];
    }
  }

  /** A list field of the reload embed: tab-joined, or "None" when that text is empty. */
  function ListField(names: seq<string>): (r: string)
    ensures r == "None" <==> Join("\t", names) == "" || Join("\t", names) == "None"
    ensures r != "None" ==> r == Join("\t", names)
  {
    var joined := Join("\t", names);
    if joined != "" then joined else "None"
  }

  /** With non-empty extension names, "None" appears exactly when the list is empty (or is the one name "None"). */
  lemma ListFieldNone(names: seq<string>)
    requires forall i :: 0 <= i < |names| ==> names[i] != ""
    ensures names == [] ==> ListField(names) == "None"
    ensures names != [] ==> ListField(names) == Join("\t", names)
  {
    JoinEmpty("\t", names);
  }

  /**
   * `blacklist`: the insert is reported by a thumbs-up or thumbs-down; then the row
   * read back for the id (`readBack`) is copied into the map, and no row raises
   * TypeError. A successful insert reads back the given reason.
   */
  method Blacklist(bot: Bot.HarleyBot, user: UserId, reason: string, inserted: bool,
                   readBack: Option<(UserId, Option<string>)>) returns (reactions: seq<string>, error: Option<Raised>)
    requires readBack.Some? ==> readBack.value.0 == user
    requires inserted ==> readBack == Some((user, Some(reason)))
    modifies bot`blacklisted
    ensures reactions == [if inserted then ThumbsUp else ThumbsDown]
    ensures readBack.None? ==> error == Some(TypeError) && bot.blacklisted == old(bot.blacklisted)
    ensures readBack.Some? ==> error == None && bot.blacklisted == old(bot.blacklisted)[user := readBack.value.1]
    ensures inserted ==> bot.blacklisted == old(bot.blacklisted)[user := Some(reason)]
  {
    reactions := if inserted then [ThumbsUp] else [ThumbsDown];
    if readBack.None? {
      return reactions, Some(TypeError);
    }
    var record := readBack.value;
    bot.blacklisted := bot.blacklisted[record.0 := record.1];
    error := None;
  }

  /**
   * `unblacklist`: when the table delete succeeds, a thumbs-up, then the pop; an id
   * missing from the map makes the pop fail and adds a thumbs-down too.
   */
  method Unblacklist(bot: Bot.HarleyBot, user: UserId, deleted: bool) returns (reactions: seq<string>)
    modifies bot`blacklisted
    ensures !deleted ==> reactions == [ThumbsDown] && bot.blacklisted == old(bot.blacklisted)
    ensures deleted ==> bot.blacklisted == old(bot.blacklisted) - {user} && user !in bot.blacklisted
    ensures deleted ==> reactions == [ThumbsUp] + (if user in old(bot.blacklisted) then [] else [ThumbsDown])
  {
    if !deleted {
      return [ThumbsDown];
    }
    reactions := [ThumbsUp];
    if user in bot.blacklisted {
      bot.blacklisted := bot.blacklisted - {user};
    } else {
      reactions := reactions + [ThumbsDown];
    }
  }

  /**
   * `delete`: the replied-to message (`reference` holds its cached message, which
   * may be missing) wins over the argument; neither raises BadArgument.
   */
  function DeleteTarget<M>(reference: Option<Option<M>>, argument: Option<M>): (r: Result<Option<M>, Raised>)
    ensures reference.Some? ==> r == Ok(reference.value)
    ensures reference.None? && argument.None? ==> r == Err(BadArgument("No input or message reference was given."))
    ensures reference.None? && argument.Some? ==> r == Ok(argument)
  {
    if reference.Some? then Ok(reference.value)
    else if argument.None? then Err(BadArgument("No input or message reference was given."))
    else Ok(argument)
  }

  /** The reaction after the delete: any failure, a missing cached message included, gives a thumbs-down. */
  function DeleteReaction<M>(target: Option<M>, deleteSucceeds: bool): (r: string)
    ensures r == ThumbsUp <==> target.Some? && deleteSucceeds
    ensures r == ThumbsUp || r == ThumbsDown
  {
    if target.Some? && deleteSucceeds then ThumbsUp else ThumbsDown
  }

  /** Each extension is listed in exactly one of the two lists. */
  lemma ReloadPartition(extensions: seq<string>, fails: set<string>, e: string)
    requires e in extensions
    ensures e in Reloaded(extensions, fails, true) <==> e !in Reloaded(extensions, fails, false)
  {
    ReloadedMembers(extensions, fails, true, e);
    ReloadedMembers(extensions, fails, false, e);
  }
}
