/** The help command: index lookup, the bot-help category filter, page footers, titles and the command page. */
module Help {
  import opened Wrappers
  import opened Text

  /** `safe_get`: Python indexing, negative indices counting from the end; out of range gives `default`. */
  function SafeGet<T>(s: seq<T>, index: int, default: T): (r: T)
    ensures 0 <= index < |s| ==> r == s[index]
    ensures -|s| <= index < 0 ==> r == s[|s| + index]
    ensures !(-|s| <= index < |s|) ==> r == default
  {
    if 0 <= index < |s| then s[index]
    else if -|s| <= index < 0 then s[|s| + index]
    else default
  }

  /** A command as the help pages show it. */
  datatype Command = Command(name: string, aliases: seq<string>, help: Option<string>, usage: Option<string>)

  /** A cog as the help pages show it; `aliases` is the optional attribute some cogs define. */
  datatype CogInfo = CogInfo(name: string, description: string, aliases: Option<seq<string>>)

  /** One entry of the help mapping: a cog (None for commands without one) and its commands. */
  type Category = (Option<CogInfo>, seq<Command>)

  /** `filter_commands`: the commands the invoker may see, in their original order. */
  function Visible(commands: seq<Command>, visible: Command -> bool): (r: seq<Command>)
    ensures |r| <= |commands|
    ensures forall c :: c in r <==> c in commands && visible(c)
  {
    if commands == [] then []
    else (if visible(commands[0]) then [commands[0]] else []) + Visible(commands[1..], visible)
  }

  /** Filtering distributes over concatenation, so the kept commands stay in their original order. */
  lemma {:induction false} VisibleAppend(a: seq<Command>, b: seq<Command>, visible: Command -> bool)
    ensures Visible(a + b, visible) == Visible(a, visible) + Visible(b, visible)
    decreases |a|
  {
    if a != [] {
      assert (a + b)[1..] == a[1..] + b;
      VisibleAppend(a[1..], b, visible);
    } else {
      assert a + b == b;
    }
  }

  /** The first comprehension of `send_bot_help`: non-empty categories with their commands filtered. */
  function Prefiltered(mapping: seq<Category>, visible: Command -> bool): seq<Category> {
    if mapping == [] then []
    else
      (if |mapping[0].1| != 0 then [(mapping[0].0, Visible(mapping[0].1, visible))] else [])
      + Prefiltered(mapping[1..], visible)
  }

  /** The second pass: entries whose filtered command list is empty are dropped. */
  function NonEmpty(entries: seq<Category>): seq<Category> {
    if entries == [] then []
    else (if |entries[0].1| != 0 then [entries[0]] else []) + NonEmpty(entries[1..])
  }

  /** The categories the bot help lists: both the raw and the filtered command list are non-empty. */
  function KeptCategories(mapping: seq<Category>, visible: Command -> bool): seq<Category> {
    if mapping == [] then []
    else (if Listed(mapping[0], visible) then [Shown(mapping[0], visible)] else []) + KeptCategories(mapping[1..], visible)
  }

  predicate Listed(c: Category, visible: Command -> bool) {
    |c.1| != 0 && |Visible(c.1, visible)| != 0
  }

  function Shown(c: Category, visible: Command -> bool): Category {
    (c.0, Visible(c.1, visible))
  }

  lemma {:induction false} NonEmptyAppend(a: seq<Category>, b: seq<Category>)
    ensures NonEmpty(a + b) == NonEmpty(a) + NonEmpty(b)
  {
    if a != [] {
      assert (a + b)[1..] == a[1..] + b;
      NonEmptyAppend(a[1..], b);
    } else {
      assert a + b == b;
    }
  }

  /** The two passes together keep exactly the categories `KeptCategories` describes. */
  lemma {:induction false} TwoPassesKeep(mapping: seq<Category>, visible: Command -> bool)
    ensures NonEmpty(Prefiltered(mapping, visible)) == KeptCategories(mapping, visible)
  {
    if mapping != [] {
      var head := if |mapping[0].1| != 0 then [(mapping[0].0, Visible(mapping[0].1, visible))] else [];
      NonEmptyAppend(head, Prefiltered(mapping[1..], visible));
      TwoPassesKeep(mapping[1..], visible);
      if head != [] {
        assert head[1..] == [];
      }
    }
  }

  /**
   * `send_bot_help`: the comprehension, then the loop that appends each entry whose
   * filtered list is non-empty (each entry is a one-key dictionary, so its inner
   * loop runs once).
   */
  method BotHelpEntries(mapping: seq<Category>, visible: Command -> bool) returns (filtered: seq<Category>)
    ensures filtered == KeptCategories(mapping, visible)
  {
    var filteredCommands := Prefiltered(mapping, visible);
    filtered := [];
    var i := 0;
    while i < |filteredCommands|
      invariant 0 <= i <= |filteredCommands|
      invariant filtered == NonEmpty(filteredCommands[..i])
    {
      NonEmptyAppend(filteredCommands[..i], [filteredCommands[i]]);
      assert filteredCommands[..i + 1] == filteredCommands[..i] + [filteredCommands[i]];
      var entry := filteredCommands[i];
      if |entry.1| != 0 {
        filtered := filtered + [entry];
      }
      i := i + 1;
    }
    assert filteredCommands[..i] == filteredCommands;
    TwoPassesKeep(mapping, visible);
  }

  /** A category is listed, with its visible commands, iff its raw and its visible list are both non-empty. */
  lemma {:induction false} KeptCategoriesIff(mapping: seq<Category>, visible: Command -> bool, e: Category)
    ensures e in KeptCategories(mapping, visible) <==>
      exists i :: 0 <= i < |mapping| && Listed(mapping[i], visible) && e == Shown(mapping[i], visible)
  {
    if mapping != [] {
      var rest := mapping[1..];
      KeptCategoriesIff(rest, visible, e);
      if exists i :: 0 <= i < |rest| && Listed(rest[i], visible) && e == Shown(rest[i], visible) {
        var i :| 0 <= i < |rest| && Listed(rest[i], visible) && e == Shown(rest[i], visible);
        assert mapping[i + 1] == rest[i];
      }
      if exists i :: 0 <= i < |mapping| && Listed(mapping[i], visible) && e == Shown(mapping[i], visible) {
        var i :| 0 <= i < |mapping| && Listed(mapping[i], visible) && e == Shown(mapping[i], visible);
        if i > 0 {
          assert rest[i - 1] == mapping[i];
        }
      }
    }
  }

  /** The mapping order is kept: the listing of a concatenation is the concatenation of the listings. */
  lemma {:induction false} KeptCategoriesAppend(a: seq<Category>, b: seq<Category>, visible: Command -> bool)
    ensures KeptCategories(a + b, visible) == KeptCategories(a, visible) + KeptCategories(b, visible)
  {
    if a != [] {
      assert (a + b)[1..] == a[1..] + b;
      KeptCategoriesAppend(a[1..], b, visible);
    } else {
      assert a + b == b;
    }
  }

  /** Entries per help page. */
  const PerPage: nat := 5

  /** `ListPageSource.get_max_pages`: the number of pages, rounded up. */
  function MaxPages(count: nat): (pages: nat)
    ensures pages == 0 <==> count == 0
    ensures count <= pages * PerPage
    ensures pages > 0 ==> (pages - 1) * PerPage < count
  {
    count / PerPage + (if count % PerPage != 0 then 1 else 0)
  }

  /** The footer of both page sources. */
  function Footer(currentPage: nat, count: nat): (r: string)
    ensures r == "Page 0/0" <==> count == 0
    ensures count > 0 ==> r == "Page " + NatToString(currentPage + 1) + " / " + NatToString(MaxPages(count))
  {
    if MaxPages(count) > 0 then
      var r := "Page " + NatToString(currentPage + 1) + " / " + NatToString(MaxPages(count));
      assert |r| > |"Page 0/0"|;
      r
    else "Page 0/0"
  }

  /** The title of `CogHelpSource`: the conditional covers the whole concatenation, so a cog without aliases gets "". */
  function CogTitle(cog: CogInfo): (r: string)
    ensures r == "" <==> cog.aliases.None?
    ensures cog.aliases.Some? ==> r == cog.name + " [" + Join(" | ", cog.aliases.value) + "]"
  {
    if cog.aliases.Some? then
      var r := cog.name + " " + "[" + Join(" | ", cog.aliases.value) + "]";
      assert r[|r| - 1] == ']';
      r
    else ""
  }

  /** Each alias in backticks. */
  function Quoted(aliases: seq<string>): (r: seq<string>)
    ensures |r| == |aliases|
    ensures forall i :: 0 <= i < |r| ==> r[i] == "`" + aliases[i] + "`"
  {
    if aliases == [] then [] else ["`" + aliases[0] + "`"] + Quoted(aliases[1..])
  }

  /** The Aliases field: the quoted aliases joined by spaces, "None" when there are none. */
  function AliasField(aliases: seq<string>): (r: string)
    ensures aliases == [] <==> r == "None"
    ensures aliases != [] ==> r == Join(" ", Quoted(aliases))
  {
    var joined := Join(" ", Quoted(aliases));
    JoinEmpty(" ", Quoted(aliases));
    if joined == "" then "None"
    else
      assert joined[0] == '`' by {
        assert Quoted(aliases)[0][0] == '`';
        if |Quoted(aliases)| > 1 {
          assert joined == Quoted(aliases)[0] + " " + Join(" ", Quoted(aliases)[1..]);
        }
      }
      joined
  }

  /** `text or "None"`: an unset or empty text shows "None". */
  function OrNone(text: Option<string>): (r: string)
    ensures text.Some? && text.value != "" ==> r == text.value
    ensures text.None? || text.value == "" ==> r == "None"
  {
    if text.Some? && text.value != "" then text.value else "None"
  }

  /**
   * `send_command_help`: nothing when filtering removes the command; otherwise the
   * Help, Aliases and Arguments fields. Every command has a `usage` attribute, so the
   * signature fallback is never taken.
   */
  function CommandHelp(command: Command, visible: Command -> bool): (r: Option<seq<(string, string)>>)
    ensures r.None? <==> !visible(command)
    ensures r.Some? ==> r.value == [("Help", OrNone(command.help)), ("Aliases", AliasField(command.aliases)),
                                   ("Arguments", OrNone(command.usage))]
  {
    var kept := Visible([command], visible);
    assert kept == (if visible(command) then [command] else []) by {
      assert [command][1..] == [];
    }
    var shown := SafeGet(seq(|kept|, i requires 0 <= i < |kept| => Some(kept[i])), 0, None);
    match shown
    case None => None
    case Some(c) =>
      Some([("Help", OrNone(c.help)), ("Aliases", AliasField(c.aliases)), ("Arguments", OrNone(c.usage))])
  }

  /** The categories' command names, in order. */
  function CommandNames(commands: seq<Command>): (r: seq<string>)
    ensures |r| == |commands|
    ensures forall i :: 0 <= i < |r| ==> r[i] == commands[i].name
  {
    if commands == [] then [] else [commands[0].name] + CommandNames(commands[1..])
  }

  /**
   * A category field of `BotHelpSource.format_page`: the bold name with the cog's aliases,
   * and the value; the `or "`None`"` applies to the whole concatenation, which always
   * holds the newline, so the fallback is never shown.
   */
  function CategoryField(category: Category): (r: (string, string))
    ensures var name := if category.0.Some? then category.0.value.name else "None";
      r.0 == if category.0.Some? && category.0.value.aliases.Some?
             then "**" + name + "** [" + Join(" | ", category.0.value.aliases.value) + "]"
             else "**" + name + "**"
    ensures var description := if category.0.Some? then category.0.value.description else "";
      r.1 == description + "\n" + Join(" ", Quoted(CommandNames(category.1)))
    ensures var description := if category.0.Some? then category.0.value.description else "";
      |r.1| > |description| && r.1[..|description| + 1] == description + "\n" && r.1 != "`None`"
  {
    var name := if category.0.Some? then category.0.value.name else "None";
    var description := if category.0.Some? then category.0.value.description else "";
    var title := if category.0.Some? && category.0.value.aliases.Some?
                 then "**" + name + "** [" + Join(" | ", category.0.value.aliases.value) + "]"
                 else "**" + name + "**";
    var value := description + "\n" + Join(" ", Quoted(CommandNames(category.1)));
    assert value[..|description| + 1] == description + "\n";
    assert value[|description|] == '\n';
    assert forall k :: 0 <= k < |"`None`"| ==> "`None`"[k] != '\n';
    (title, if value != "" then value else "`None`")
  }
}
