/** The global blacklist check run before every command. */
module Checks {
  import opened Wrappers
  import opened Records
  import Bot

  /** Python's `str(True)`. */
  const TrueText := "True"

  /**
   * `blacklisted` as written: `reason := get(...) is not None` binds the boolean
   * comparison, so the message shows `True`, whatever reason is stored. An author
   * stored with a null reason passes.
   */
  function BlacklistCheck(blacklisted: map<UserId, Option<string>>, author: UserId): (r: Result<bool, Raised>)
    ensures r.Ok? <==> author !in blacklisted || blacklisted[author].None?
    ensures r.Ok? ==> r.value
    ensures r.Err? ==> r.error == Blacklisted("You are blacklisted! Reason: `" + TrueText + "`")
  {
    var reason := author in blacklisted && blacklisted[author].Some?;
    if reason then Err(Blacklisted("You are blacklisted! Reason: `" + (if reason then TrueText else "False") + "`"))
    else Ok(true)
  }

  /** The check as evidently intended: the stored reason appears in the message. */
  function BlacklistCheckIntended(blacklisted: map<UserId, Option<string>>, author: UserId): (r: Result<bool, Raised>)
    ensures r.Ok? <==> author !in blacklisted || blacklisted[author].None?
    ensures r.Ok? ==> r.value
    ensures r.Err? ==> r.error == Blacklisted("You are blacklisted! Reason: `" + blacklisted[author].value + "`")
  {
    var reason := if author in blacklisted then blacklisted[author] else None;
    if reason.Some? then Err(Blacklisted("You are blacklisted! Reason: `" + reason.value + "`"))
    else Ok(true)
  }

  /** The two versions decide alike, but the written message loses every reason other than "True". */
  lemma BlacklistMessageLosesReason(blacklisted: map<UserId, Option<string>>, author: UserId)
    ensures BlacklistCheck(blacklisted, author).Ok? <==> BlacklistCheckIntended(blacklisted, author).Ok?
    ensures author in blacklisted && blacklisted[author].Some? && blacklisted[author].value != TrueText ==>
      BlacklistCheck(blacklisted, author) != BlacklistCheckIntended(blacklisted, author)
  {
    if author in blacklisted && blacklisted[author].Some? && blacklisted[author].value != TrueText {
      var prefix := "You are blacklisted! Reason: `";
      var written := prefix + TrueText + "`";
      var intended := prefix + blacklisted[author].value + "`";
      assert written[|prefix|..|written| - 1] == TrueText;
      assert intended[|prefix|..|intended| - 1] == blacklisted[author].value;
    }
  }

  /** A concrete case: the reason "spam" is shown as `True`. */
  lemma SpamShownAsTrue()
    ensures BlacklistCheck(map[7 := Some("spam")], 7) == Err(Blacklisted("You are blacklisted! Reason: `True`"))
    ensures BlacklistCheckIntended(map[7 := Some("spam")], 7) == Err(Blacklisted("You are blacklisted! Reason: `spam`"))
  {
    assert "You are blacklisted! Reason: `" + TrueText + "`" == "You are blacklisted! Reason: `True`";
    assert "You are blacklisted! Reason: `" + "spam" + "`" == "You are blacklisted! Reason: `spam`";
  }

  /** `Checks.__init__`: the check is registered globally on the bot. */
  method RegisterChecks(bot: Bot.HarleyBot)
    modifies bot
    ensures bot.checks == old(bot.checks) + ["blacklisted"]
    ensures bot.cache == old(bot.cache) && bot.blacklisted == old(bot.blacklisted) && bot.cogs == old(bot.cogs)
  {
    bot.AddCheck("blacklisted");
  }
}
