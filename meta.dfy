/** The meta cog: the uptime shown by `botinfo` and the links built by `invite`. */
module Meta {
  import opened Wrappers
  import opened Text
  import opened Records

  /** Python's `int(x)` on a float: truncation toward zero. */
  function Trunc(x: real): int {
    if x >= 0.0 then x.Floor else -((-x).Floor)
  }

  datatype Uptime = Uptime(days: int, hours: int, minutes: int, seconds: int)

  /**
   * `botinfo`: `divmod` by 3600, then by 60, then the hours by 24. For a positive
   * divisor Python's floored `divmod` agrees with Dafny's `/` and `%`.
   */
  function UptimeOf(elapsed: real): (r: Uptime)
    ensures r.days * 86400 + r.hours * 3600 + r.minutes * 60 + r.seconds == Trunc(elapsed)
    ensures 0 <= r.hours < 24 && 0 <= r.minutes < 60 && 0 <= r.seconds < 60
    ensures elapsed >= 0.0 ==> r.days >= 0
  {
    var total := Trunc(elapsed);
    var hours, remainder := total / 3600, total % 3600;
    var minutes, seconds := remainder / 60, remainder % 60;
    var days, hours' := hours / 24, hours % 24;
    assert total == hours * 3600 + remainder;
    assert remainder == minutes * 60 + seconds;
    assert hours == days * 24 + hours';
    Uptime(days, hours', minutes, seconds)
  }

  /** Truncation drops the fraction: 90061.9 seconds is 1d 1h 1m 1s. */
  lemma UptimeExample()
    ensures UptimeOf(90061.9) == Uptime(1, 1, 1, 1)
  {
    assert Trunc(90061.9) == 90061;
  }

  /** The three default invite links and their permission values. */
  const DefaultInvites: seq<(string, int)> := [("Recommended Permissions", 470150358), ("No Permissions", 0), ("Admin Permissions", 8)]

  /** `invite`: the `--permissions` flag, if any, gives one custom link unless its text is over 30 characters. */
  function Invite(permissions: Option<int>): (r: Result<seq<(string, int)>, Raised>)
    ensures permissions.None? ==> r == Ok(DefaultInvites)
    ensures permissions.Some? ==>
      (r.Err? <==> |IntToString(permissions.value)| > 30) &&
      (r.Err? ==> r.error == BadArgument("Why is the permissions value over 30 characters long?")) &&
      (r.Ok? ==> r.value == [("Your Permissions", permissions.value)])
  {
    match permissions
    case None => Ok(DefaultInvites)
    case Some(p) =>
      if |IntToString(p)| > 30 then Err(BadArgument("Why is the permissions value over 30 characters long?"))
      else Ok([("Your Permissions", p)])
  }

  /** The length rule in numbers: non-negative values below 10^30, negative ones above -10^29. */
  lemma InviteBound(p: int)
    ensures p >= 0 ==> (Invite(Some(p)).Ok? <==> p < Pow10(30))
    ensures p < 0 ==> (Invite(Some(p)).Ok? <==> -p < Pow10(29))
  {
    if p >= 0 {
      NatToStringLength(p, 30);
    } else {
      NatToStringLength(-p, 29);
    }
  }
}
