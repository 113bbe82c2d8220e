/** Helpers shared by the cogs: reading a guild's logging flag, title-casing, audit lookups. */
module Utils {
  import opened Wrappers
  import opened Text
  import opened Records
  import opened Enums

  /**
   * `Utilities.get_enum(id)`: the guild's cached `options` text read in base 2.
   * A guild missing from the cache raises KeyError (not caught); a missing
   * `options` key reads as '0'; a null, non-text or non-binary value gives NONE.
   */
  function GetEnum(cache: Cache, id: GuildId): (r: Result<nat, Raised>)
    ensures Guild(id) !in cache <==> r.Err?
    ensures r.Err? ==> r.error == MissingGuild(id)
    ensures Guild(id) in cache && "options" !in cache[Guild(id)] ==> r == Ok(0)
    ensures Guild(id) in cache && "options" in cache[Guild(id)] ==>
      r == Ok(match cache[Guild(id)]["options"]
               case Str(s) => ParseBinary(s).GetOr(LogValue(LogOption.NONE))
               case _ => LogValue(LogOption.NONE))
  {
    if Guild(id) !in cache then Err(MissingGuild(id))
    else
      var row := cache[Guild(id)];
      assert BinaryValue("0") == 0;
      var options := if "options" in row then row["options"] else Str("0");
      match options
      case Str(s) =>
        (match ParseBinary(s)
         case Some(v) => Ok(v)
         case None => Ok(LogValue(LogOption.NONE)))
      case _ => Ok(LogValue(LogOption.NONE))
  }

  /** What a stored `options` column reads back as once the cache holds the row. */
  lemma GetEnumReadsStoredOptions(cache: Cache, id: GuildId, options: seq<LogOption>)
    requires Guild(id) in cache && "options" in cache[Guild(id)]
    requires cache[Guild(id)]["options"] == Str(Bin(Sum(options)))
    ensures GetEnum(cache, id) == Ok(Sum(options))
  {
    BinRoundTrip(Sum(options));
  }

  /** A missing key gives the empty flag (NONE unset); a null value gives NONE. */
  lemma GetEnumDefaults(cache: Cache, id: GuildId)
    requires Guild(id) in cache
    ensures "options" !in cache[Guild(id)] ==> !Has(GetEnum(cache, id).value, LogOption.NONE)
    ensures "options" in cache[Guild(id)] && cache[Guild(id)]["options"] == Null ==>
      GetEnum(cache, id) == Ok(1) && Has(GetEnum(cache, id).value, LogOption.NONE)
  {
    BitOfZero(0);
  }

  /** `str.title()` on one character, given whether the previous character was a letter. */
  function TitleChar(c: char, afterLetter: bool): char {
    if !IsLetter(c) then c else if afterLetter then ToLowerChar(c) else ToUpperChar(c)
  }

  /** `str.title()`: scanning left to right, remembering whether the last character was cased. */
  function TitleFrom(s: string, afterLetter: bool): string {
    if s == [] then [] else [TitleChar(s[0], afterLetter)] + TitleFrom(s[1..], IsLetter(s[0]))
  }

  function Unslug(c: char): char {
    if c == '_' || c == '-' then ' ' else c
  }

  /** `title_format`: title-case first, then turn every '_' and '-' into a space. */
  function TitleFormat(s: string): string {
    var t := TitleFrom(s, false);
    seq(|t|, i requires 0 <= i < |t| => Unslug(t[i]))
  }

  lemma {:induction false} TitleFromAt(s: string, afterLetter: bool, i: nat)
    requires i < |s|
    ensures |TitleFrom(s, afterLetter)| == |s|
    ensures TitleFrom(s, afterLetter)[i] ==
      TitleChar(s[i], if i == 0 then afterLetter else IsLetter(s[i - 1]))
  {
    if i > 0 {
      TitleFromAt(s[1..], IsLetter(s[0]), i - 1);
    } else if |s| > 1 {
      TitleFromAt(s[1..], IsLetter(s[0]), 0);
    }
  }

  /**
   * Character by character: a letter is upper-cased exactly when it starts the string
   * or follows a non-letter, every other letter is lower-cased, '_' and '-' become
   * spaces, and everything else is kept. The length does not change.
   */
  lemma TitleFormatAt(s: string, i: nat)
    requires i < |s|
    ensures |TitleFormat(s)| == |s|
    ensures TitleFormat(s)[i] ==
      if IsLetter(s[i]) then
        (if i == 0 || !IsLetter(s[i - 1]) then ToUpperChar(s[i]) else ToLowerChar(s[i]))
      else if s[i] == '_' || s[i] == '-' then ' '
      else s[i]
    ensures TitleFormat(s)[i] != '_' && TitleFormat(s)[i] != '-'
  {
    TitleFromAt(s, false, i);
  }

  /**
   * `get_audit`: the newest entry for the action, or None when the audit log is
   * forbidden or empty. As written, only an entry dated more than 3 s AFTER now is
   * rejected; an entry from long ago is returned.
   */
  function GetAudit(fetch: AuditFetch, now: real): (r: Option<AuditEntry>)
    ensures r.Some? <==> fetch.Fetched? && |fetch.entries| > 0 && fetch.entries[0].createdAt - now <= 3.0
    ensures r.Some? ==> r.value == fetch.entries[0]
  {
    match fetch
    case Denied => None
    case Fetched(entries) =>
      if |entries| == 0 then None
      else if entries[0].createdAt - now > 3.0 then None
      else Some(entries[0])
  }

  /** The freshness test is reversed: an entry an hour old is still returned. */
  lemma GetAuditAcceptsStaleEntry(e: AuditEntry, now: real)
    requires e.createdAt == now - 3600.0
    ensures GetAudit(Fetched([e]), now) == Some(e)
  {
  }

  /** The evidently intended test: an entry older than 3 s is discarded. */
  function GetAuditIntended(fetch: AuditFetch, now: real): (r: Option<AuditEntry>)
    ensures r.Some? <==> fetch.Fetched? && |fetch.entries| > 0 && now - fetch.entries[0].createdAt <= 3.0
    ensures r.Some? ==> r.value == fetch.entries[0]
  {
    match fetch
    case Denied => None
    case Fetched(entries) =>
      if |entries| == 0 then None
      else if now - entries[0].createdAt > 3.0 then None
      else Some(entries[0])
  }

  /**
   * The two tests agree on entries dated within 3 s of now on either side. They differ on an
   * entry more than 3 s old, which only the written test returns, and on one dated more than
   * 3 s ahead, which only the written test drops.
   */
  lemma GetAuditDiffersOnlyOutsideWindow(fetch: AuditFetch, now: real)
    ensures fetch.Fetched? && |fetch.entries| > 0 && now - fetch.entries[0].createdAt <= 3.0
            && fetch.entries[0].createdAt - now <= 3.0 ==>
      GetAudit(fetch, now) == GetAuditIntended(fetch, now)
    ensures GetAudit(fetch, now) != GetAuditIntended(fetch, now) ==>
      (GetAudit(fetch, now).Some? && now - fetch.entries[0].createdAt > 3.0) ||
      (GetAuditIntended(fetch, now).Some? && fetch.entries[0].createdAt - now > 3.0)
  {
  }
}
