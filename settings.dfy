/** The settings cog: prefix and mute-role validation, the stored logging options, the muted role's permissions. */
module Settings {
  import opened Wrappers
  import opened Text
  import opened Records
  import opened Enums
  import opened Utils

  /** The two mention forms of the bot, `<@ID>` and `<@!ID>`. */
  function Mention(botId: nat, nickname: bool): string {
    "<@" + (if nickname then "!" else "") + NatToString(botId) + ">"
  }

  /**
   * `PrefixConverter.convert`: the search for `<@(!?)ID>` succeeds iff one of the
   * two mention forms occurs somewhere in the argument.
   */
  function ConvertPrefix(argument: string, botId: nat): (r: Result<string, Raised>)
    ensures r.Err? <==> exists nickname: bool, i :: OccursAt(argument, Mention(botId, nickname), i)
    ensures r.Err? ==> r.error == BadArgument("Prefix cannot contain a reserved string.")
    ensures r.Ok? ==> r.value == argument
  {
    ContainsAt(argument, Mention(botId, false));
    ContainsAt(argument, Mention(botId, true));
    if Contains(argument, Mention(botId, false)) || Contains(argument, Mention(botId, true)) then
      Err(BadArgument("Prefix cannot contain a reserved string."))
    else
      Ok(argument)
  }

  /** A prefix without '<' can never be rejected. */
  lemma PrefixWithoutBracketAccepted(argument: string, botId: nat)
    requires forall i :: 0 <= i < |argument| ==> argument[i] != '<'
    ensures ConvertPrefix(argument, botId) == Ok(argument)
  {
    forall nickname: bool, i ensures !OccursAt(argument, Mention(botId, nickname), i) {
      var t := Mention(botId, nickname);
      if 0 <= i <= |argument| - |t| {
        assert argument[i..i + |t|][0] == argument[i];
      }
    }
  }

  const AboveMyRoleMessage := "The role cannot be above or equal to my top role in the hierarchy."
  const AboveYourRoleMessage := "The role cannot be above or equal to your top role in the hierarchy."

  /**
   * `MuteRoleConverter.convert`: `found` is what the role lookup returned for the
   * argument. The bot's top role is checked before the author's.
   */
  function ConvertMuteRole(argument: string, found: Option<Role>, myTop: Role, authorTop: Role): (r: Result<Role, Raised>)
    ensures r.Ok? <==> found.Some? && !RoleAtLeast(found.value, myTop) && !RoleAtLeast(found.value, authorTop)
    ensures r.Ok? ==> r.value == found.value
    ensures found.None? ==> r == Err(RoleNotFound(argument))
    ensures found.Some? && RoleAtLeast(found.value, myTop) ==> r == Err(BadArgument(AboveMyRoleMessage))
    ensures found.Some? && !RoleAtLeast(found.value, myTop) && RoleAtLeast(found.value, authorTop) ==>
      r == Err(BadArgument(AboveYourRoleMessage))
  {
    match found
    case None => Err(RoleNotFound(argument))
    case Some(role) =>
      if RoleAtLeast(role, myTop) then Err(BadArgument(AboveMyRoleMessage))
      else if RoleAtLeast(role, authorTop) then Err(BadArgument(AboveYourRoleMessage))
      else Ok(role)
  }

  /** `log_options`: the text written to `config.options`, `bin(LoggingEnum(sum(options)))`. */
  function StoredOptions(options: seq<LogOption>): string {
    Bin(Sum(options))
  }

  /**
   * The round trip through the table and the cache: once the refreshed row holds
   * the stored text, `get_enum` reads back the sum, and for distinct options
   * exactly the chosen categories are set.
   */
  lemma LogOptionsRoundTrip(cache: Cache, row: ConfigRow, options: seq<LogOption>)
    requires row.options == Some(StoredOptions(options))
    ensures GetEnum(cache[Guild(row.id) := ConfigDict(row)], row.id) == Ok(Sum(options))
    ensures Distinct(options) ==> forall o :: Has(Sum(options), o) <==> o in options
  {
    GetEnumReadsStoredOptions(cache[Guild(row.id) := ConfigDict(row)], row.id, options);
    if Distinct(options) {
      forall o ensures Has(Sum(options), o) <==> o in options {
        SumOfDistinct(options, o);
      }
    }
  }

  /** No options store "0b0": a flag with no category set, NONE included. */
  lemma EmptyOptionsStoreZero()
    ensures StoredOptions([]) == "0b0"
    ensures forall o :: !Has(Sum([]), o)
  {
    forall o ensures !Has(Sum([]), o) {
      BitOfZero(LogIndex(o));
    }
  }

  /** Bit positions of the two permissions the muted role loses. */
  const SendMessagesBit: nat := 11
  const AddReactionsBit: nat := 6

  /** A role's permission set, a bit field edited flag by flag. */
  class Permissions {
    var value: nat

    constructor (value: nat)
      ensures this.value == value
    {
      this.value := value;
    }

    /** Assigning one flag: that bit becomes `on`, every other bit keeps its value. */
    method SetFlag(k: nat, on: bool)
      modifies this
      ensures Bit(value, k) == on
      ensures forall j :: j != k ==> (Bit(value, j) <==> Bit(old(value), j))
    {
      var u := value;
      if on && !Bit(u, k) {
        value := u + Pow2(k);
        forall j ensures Bit(value, j) <==> (j == k || Bit(u, j)) {
          BitAddAt(u, k, j);
        }
      } else if !on && Bit(u, k) {
        BitSubAt(u, k, k);
        value := u - Pow2(k);
        forall j ensures Bit(value, j) <==> (j != k && Bit(u, j)) {
          BitSubAt(u, k, j);
        }
      }
    }
  }

  /** `set_mute`: `send_messages` and `add_reactions` are cleared; every other permission is kept. */
  method MutedPermissions(permissions: Permissions)
    modifies permissions
    ensures !Bit(permissions.value, SendMessagesBit) && !Bit(permissions.value, AddReactionsBit)
    ensures forall j :: j != SendMessagesBit && j != AddReactionsBit ==>
      (Bit(permissions.value, j) <==> Bit(old(permissions.value), j))
  {
    permissions.SetFlag(SendMessagesBit, false);
    permissions.SetFlag(AddReactionsBit, false);
  }
}
