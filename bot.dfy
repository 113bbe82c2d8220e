/**
 * The bot object: its guild-config cache, blacklist, case-insensitive cog registry
 * and global checks, plus the prefix lookup and the confirmation-prompt result.
 */
module Bot {
  import opened Wrappers
  import opened Text
  import opened Records

  /** A cog as the registry stores it: its name and its optional `aliases` attribute. */
  datatype Cog = Cog(name: string, aliases: Option<seq<string>>)

  /** The cache entry every guild without a config row falls back to. */
  function DefaultEntry(configPrefix: string): Row {
    map["prefix" := Str(configPrefix)]
  }

  /** The cache after loading `configs` in order on top of `base`: a later row with the same id wins. */
  function Loaded(base: Cache, configs: seq<ConfigRow>): Cache {
    if configs == [] then base
    else Loaded(base, configs[..|configs| - 1])[Guild(configs[|configs| - 1].id) := ConfigDict(configs[|configs| - 1])]
  }

  /** The blacklist after loading `(id, reason)` rows in order on top of `base`. */
  function LoadedBlacklist(base: map<UserId, Option<string>>, rows: seq<(UserId, Option<string>)>): map<UserId, Option<string>> {
    if rows == [] then base
    else LoadedBlacklist(base, rows[..|rows| - 1])[rows[|rows| - 1].0 := rows[|rows| - 1].1]
  }

  /** Loading touches only guild keys: the "default" entry survives and each config row is cached. */
  lemma {:induction false} LoadedEntries(base: Cache, configs: seq<ConfigRow>, g: GuildId)
    ensures Default in base ==> Default in Loaded(base, configs) && Loaded(base, configs)[Default] == base[Default]
    ensures (exists i :: 0 <= i < |configs| && configs[i].id == g) ==> Guild(g) in Loaded(base, configs)
    ensures (forall i :: 0 <= i < |configs| ==> configs[i].id != g) ==>
      (Guild(g) in Loaded(base, configs) <==> Guild(g) in base)
  {
    if configs != [] {
      var init := configs[..|configs| - 1];
      LoadedEntries(base, init, g);
      if exists i :: 0 <= i < |configs| && configs[i].id == g {
        var i :| 0 <= i < |configs| && configs[i].id == g;
        if i < |configs| - 1 {
          assert init[i].id == g;
        }
      }
      if forall i :: 0 <= i < |configs| ==> configs[i].id != g {
        assert forall i :: 0 <= i < |init| ==> init[i].id != g by {
          forall i | 0 <= i < |init| ensures init[i].id != g { assert init[i] == configs[i]; }
        }
      }
    }
  }

  /** The case-insensitive registry after mapping every lower-cased key in `keys` to `cog`. */
  function WithKeys(m: map<string, Cog>, keys: seq<string>, cog: Cog): map<string, Cog>
    decreases |keys|
  {
    if keys == [] then m else WithKeys(m[Lower(keys[0]) := cog], keys[1..], cog)
  }

  /**
   * `remove_cog`'s alias loop: pop each lower-cased key. The registry is a
   * case-insensitive dict whose `pop` defaults to None, so a missing key is passed over.
   */
  function WithoutKeys(m: map<string, Cog>, keys: seq<string>): map<string, Cog>
    decreases |keys|
  {
    if keys == [] then m else WithoutKeys(m - {Lower(keys[0])}, keys[1..])
  }

  function AliasesOf(cog: Cog): seq<string> {
    if cog.aliases.Some? then cog.aliases.value else []
  }

  class HarleyBot {
    const configPrefix: string
    var cache: Cache
    var blacklisted: map<UserId, Option<string>>
    var cogs: map<string, Cog>
    var checks: seq<string>

    /** The "default" entry holds the configured prefix; nothing ever replaces it. */
    ghost predicate Valid()
      reads this
    {
      Default in cache && cache[Default] == DefaultEntry(configPrefix)
    }

    /** `HarleyBot.__init__`: empty state plus the "default" entry. */
    constructor (configPrefix: string)
      ensures Valid()
      ensures this.configPrefix == configPrefix
      ensures cache == map[Default := DefaultEntry(configPrefix)]
      ensures blacklisted == map[] && cogs == map[] && checks == []
    {
      this.configPrefix := configPrefix;
      cache := map[Default := DefaultEntry(configPrefix)];
      blacklisted := map[];
      cogs := map[];
      checks := [];
    }

    /**
     * `__ainit__`: cache every row of `SELECT * FROM config` under its id and every
     * row of `SELECT * FROM blacklist` as id to reason.
     */
    method AsyncInit(configs: seq<ConfigRow>, blacklist: seq<(UserId, Option<string>)>)
      requires Valid()
      modifies this
      ensures Valid()
      ensures cache == Loaded(old(cache), configs)
      ensures blacklisted == LoadedBlacklist(old(blacklisted), blacklist)
      ensures cogs == old(cogs) && checks == old(checks)
    {
      var i := 0;
      while i < |configs|
        invariant 0 <= i <= |configs|
        invariant cache == Loaded(old(cache), configs[..i])
        invariant Valid()
        invariant blacklisted == old(blacklisted) && cogs == old(cogs) && checks == old(checks)
      {
        assert configs[..i + 1][..i] == configs[..i];
        cache := cache[Guild(configs[i].id) := ConfigDict(configs[i])];
        i := i + 1;
      }
      assert configs[..i] == configs;
      var j := 0;
      while j < |blacklist|
        invariant 0 <= j <= |blacklist|
        invariant blacklisted == LoadedBlacklist(old(blacklisted), blacklist[..j])
        invariant cache == Loaded(old(cache), configs) && Valid()
        invariant cogs == old(cogs) && checks == old(checks)
      {
        assert blacklist[..j + 1][..j] == blacklist[..j];
        blacklisted := blacklisted[blacklist[j].0 := blacklist[j].1];
        j := j + 1;
      }
      assert blacklist[..j] == blacklist;
    }

    /**
     * `refresh_cache_for(id)`: `fetched` is what `SELECT * FROM config WHERE id = $1`
     * returned. Only `cache[id]` is replaced; no row raises TypeError and changes nothing.
     */
    method RefreshCacheFor(id: GuildId, fetched: Option<ConfigRow>) returns (r: Option<Raised>)
      requires Valid()
      requires fetched.Some? ==> fetched.value.id == id
      modifies this`cache
      ensures Valid()
      ensures fetched.None? ==> r == Some(TypeError) && cache == old(cache)
      ensures fetched.Some? ==> r == None && cache == old(cache)[Guild(id) := ConfigDict(fetched.value)]
    {
      if fetched.None? {
        return Some(TypeError);
      }
      cache := cache[Guild(fetched.value.id) := ConfigDict(fetched.value)];
      r := None;
    }

    /** `add_cog`: register the cog under its name, then under every alias. */
    method AddCog(cog: Cog)
      modifies this`cogs
      ensures cogs == WithKeys(old(cogs)[Lower(cog.name) := cog], AliasesOf(cog), cog)
    {
      cogs := cogs[Lower(cog.name) := cog];
      if cog.aliases.Some? {
        var aliases := cog.aliases.value;
        var i := 0;
        while i < |aliases|
          invariant 0 <= i <= |aliases|
          invariant WithKeys(old(cogs)[Lower(cog.name) := cog], aliases, cog) == WithKeys(cogs, aliases[i..], cog)
        {
          assert aliases[i..][1..] == aliases[i + 1..];
          cogs := cogs[Lower(aliases[i]) := cog];
          i := i + 1;
        }
      }
    }

    /**
     * `remove_cog(name)`: look the cog up, pop `name`, then pop every alias of the cog,
     * passing over aliases no longer present.
     */
    method RemoveCog(name: string)
      modifies this`cogs
      ensures Lower(name) !in old(cogs) ==> cogs == old(cogs)
      ensures Lower(name) in old(cogs) ==>
        cogs == WithoutKeys(old(cogs) - {Lower(name)}, AliasesOf(old(cogs)[Lower(name)]))
      ensures Lower(name) in old(cogs) ==>
        cogs == old(cogs) - {Lower(name)} - LowerSet(AliasesOf(old(cogs)[Lower(name)]))
    {
      if Lower(name) !in cogs {
        return;
      }
      var cog := cogs[Lower(name)];
      cogs := cogs - {Lower(name)};
      var aliases := AliasesOf(cog);
      var i := 0;
      while i < |aliases|
        invariant 0 <= i <= |aliases|
        invariant WithoutKeys(old(cogs) - {Lower(name)}, aliases) == WithoutKeys(cogs, aliases[i..])
      {
        assert aliases[i..][1..] == aliases[i + 1..];
        cogs := cogs - {Lower(aliases[i])};
        i := i + 1;
      }
      WithoutKeysRemoves(old(cogs) - {Lower(name)}, aliases);
    }

    /** `bot.add_check(check)`: a global check, run before every command. */
    method AddCheck(check: string)
      modifies this`checks
      ensures checks == old(checks) + [check]
    {
      checks := checks + [check];
    }
  }

  /** Keys `WithKeys` maps: exactly the lower-cased aliases, each to the cog. */
  lemma {:induction false} WithKeysAt(m: map<string, Cog>, keys: seq<string>, cog: Cog, k: string)
    decreases |keys|
    ensures k in WithKeys(m, keys, cog) <==> k in m || exists i :: 0 <= i < |keys| && Lower(keys[i]) == k
    ensures (exists i :: 0 <= i < |keys| && Lower(keys[i]) == k) ==> WithKeys(m, keys, cog)[k] == cog
    ensures (forall i :: 0 <= i < |keys| ==> Lower(keys[i]) != k) && k in m ==> WithKeys(m, keys, cog)[k] == m[k]
  {
    if keys != [] {
      WithKeysAt(m[Lower(keys[0]) := cog], keys[1..], cog, k);
      if exists i :: 0 <= i < |keys| && Lower(keys[i]) == k {
        var i :| 0 <= i < |keys| && Lower(keys[i]) == k;
        if i > 0 { assert Lower(keys[1..][i - 1]) == k; }
      }
      if exists i :: 0 <= i < |keys[1..]| && Lower(keys[1..][i]) == k {
        var i :| 0 <= i < |keys[1..]| && Lower(keys[1..][i]) == k;
        assert Lower(keys[i + 1]) == k;
      }
    }
  }

  /** The lower-cased forms of `keys`. */
  function LowerSet(keys: seq<string>): set<string> {
    if keys == [] then {} else {Lower(keys[0])} + LowerSet(keys[1..])
  }

  lemma {:induction false} LowerSetAt(keys: seq<string>, x: string)
    ensures x in LowerSet(keys) <==> exists i :: 0 <= i < |keys| && Lower(keys[i]) == x
  {
    if keys != [] {
      LowerSetAt(keys[1..], x);
      if exists i :: 0 <= i < |keys[1..]| && Lower(keys[1..][i]) == x {
        var i :| 0 <= i < |keys[1..]| && Lower(keys[1..][i]) == x;
        assert Lower(keys[i + 1]) == x;
      }
    }
  }

  /** Popping the aliases removes exactly their lower-cased forms, whether or not each is present. */
  lemma {:induction false} WithoutKeysRemoves(m: map<string, Cog>, keys: seq<string>)
    ensures WithoutKeys(m, keys) == m - LowerSet(keys)
    decreases |keys|
  {
    if keys != [] {
      WithoutKeysRemoves(m - {Lower(keys[0])}, keys[1..]);
      assert m - {Lower(keys[0])} - LowerSet(keys[1..]) == m - LowerSet(keys);
    }
  }

  /** Adding a cog whose name and aliases are all new keys, then removing it by name, restores the registry. */
  lemma AddThenRemoveRestores(m: map<string, Cog>, cog: Cog)
    requires Lower(cog.name) !in m && LowerSet(AliasesOf(cog)) !! m.Keys
    requires Lower(cog.name) !in LowerSet(AliasesOf(cog))
    ensures var added := WithKeys(m[Lower(cog.name) := cog], AliasesOf(cog), cog);
      Lower(cog.name) in added && added[Lower(cog.name)] == cog &&
      WithoutKeys(added - {Lower(cog.name)}, AliasesOf(cog)) == m
  {
    var keys := AliasesOf(cog);
    var base := m[Lower(cog.name) := cog];
    var added := WithKeys(base, keys, cog);
    WithKeysAt(base, keys, cog, Lower(cog.name));
    LowerSetAt(keys, Lower(cog.name));
    WithoutKeysRemoves(added - {Lower(cog.name)}, keys);
    forall k ensures k in m <==> k in added - {Lower(cog.name)} - LowerSet(keys) {
      WithKeysAt(base, keys, cog, k);
      LowerSetAt(keys, k);
    }
    forall k | k in m ensures m[k] == (added - {Lower(cog.name)} - LowerSet(keys))[k] {
      WithKeysAt(base, keys, cog, k);
      LowerSetAt(keys, k);
    }
    assert m == added - {Lower(cog.name)} - LowerSet(keys);
  }

  /**
   * `get_prefix`: for a direct message (no guild) `message.guild.id` raises
   * AttributeError; otherwise the guild's cache entry, else the "default" entry (a
   * missing one raises AttributeError); its "prefix" when present and not null, else the
   * configured prefix. The mention forms `when_mentioned_or` adds are not modelled.
   */
  function GetPrefix(cache: Cache, guild: Option<GuildId>, configPrefix: string): (r: Result<string, Raised>)
    ensures guild.None? || (Guild(guild.value) !in cache && Default !in cache) <==> r == Err(AttributeError)
    ensures guild.Some? && (Guild(guild.value) in cache || Default in cache) ==>
      var entry := if Guild(guild.value) in cache then cache[Guild(guild.value)] else cache[Default];
      (r.Ok? <==> "prefix" !in entry || entry["prefix"].Str? || entry["prefix"].Null?) &&
      (r.Ok? ==> r.value == (if "prefix" in entry && entry["prefix"].Str? then entry["prefix"].s else configPrefix)) &&
      (r.Err? ==> r.error == TypeError)
  {
    match guild
    case None => Err(AttributeError)
    case Some(id) =>
    var entry := if Guild(id) in cache then Some(cache[Guild(id)])
                 else if Default in cache then Some(cache[Default]) else None;
    match entry
    case None => Err(AttributeError)
    case Some(e) =>
      var prefix := if "prefix" in e then e["prefix"] else Str(configPrefix);
      match prefix
      case Str(p) => Ok(p)
      case Null => Ok(configPrefix)
      case _ => Err(TypeError)
  }

  /**
   * With the bot's invariant: a guild without its own entry gets the configured
   * prefix, and a guild whose cached row has a null prefix gets it too.
   */
  lemma PrefixFallback(cache: Cache, guild: GuildId, configPrefix: string)
    requires Default in cache && cache[Default] == DefaultEntry(configPrefix)
    ensures Guild(guild) !in cache ==> GetPrefix(cache, Some(guild), configPrefix) == Ok(configPrefix)
    ensures Guild(guild) in cache && "prefix" in cache[Guild(guild)] && cache[Guild(guild)]["prefix"] == Null ==>
      GetPrefix(cache, Some(guild), configPrefix) == Ok(configPrefix)
  {
  }

  /** A guild whose config row sets a prefix gets exactly that prefix once the row is cached. */
  lemma PrefixFromConfigRow(cache: Cache, row: ConfigRow, configPrefix: string)
    requires row.prefix.Some?
    ensures GetPrefix(cache[Guild(row.id) := ConfigDict(row)], Some(row.id), configPrefix) == Ok(row.prefix.value)
  {
  }

  /** How the user answered the prompt: a reaction passing the check, or the 30 s timeout. */
  datatype Answer = Picked(emoji: string) | TimedOut

  /** What `confirm` sent as its prompt. */
  datatype Prompt = EmbedPrompt(embed: string) | TextPrompt(text: string)

  /**
   * `HarleyContext.confirm`: the prompt (an embed wins over text, neither raises
   * before any reaction is added) and the answer, `reactions.index(str(reaction))`
   * as a boolean over the list [x-mark, checkmark].
   */
  function Confirm(embed: Option<string>, text: Option<string>, xMark: string, checkmark: string, answer: Answer)
    : (r: Result<(Prompt, bool), Raised>)
    requires answer.Picked? ==> answer.emoji == xMark || answer.emoji == checkmark
    ensures r.Err? <==> embed.None? && text.None?
    ensures r.Err? ==> r.error == BadArgument("No embed or text provided.")
    ensures r.Ok? ==> r.value.0 == if embed.Some? then EmbedPrompt(embed.value) else TextPrompt(text.value)
    ensures r.Ok? ==> (r.value.1 <==> answer == Picked(checkmark) && checkmark != xMark)
  {
    var prompt := if embed.Some? then Some(EmbedPrompt(embed.value))
                  else if text.Some? then Some(TextPrompt(text.value)) else None;
    match prompt
    case None => Err(BadArgument("No embed or text provided."))
    case Some(p) =>
      var reactions := [xMark, checkmark];
      match answer
      case TimedOut => Ok((p, false))
      case Picked(e) =>
        var index := if e == reactions[0] then 0 else 1;
        Ok((p, index != 0))
  }
}
