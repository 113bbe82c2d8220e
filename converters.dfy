/**
 * Argument converters: the member-hierarchy check, the duration parser, the
 * logging-option parser and the attachment picker.
 */
module Converters {
  import opened Wrappers
  import opened Text
  import opened Records
  import opened Enums

  const OwnerMessage := "This member owns the guild."
  const SelfMessage := "You cannot preform this action on yourself."
  const AboveAuthorMessage := "The given member's top role is either equal or higher than yours in the hierarchy!"
  const AboveBotMessage := "The given member's top role is either equal or higher than mine in the hierarchy!"

  /**
   * `HierarchyMemberConverter.convert`. `found` is what the library's member lookup
   * resolved `argument` to; `owner` is the guild owner when it is cached. The checks
   * run in a fixed order and the first that fails raises.
   */
  function HierarchyMember(argument: string, found: Option<Member>, owner: Option<UserId>, author: Member, me: Member)
    : (r: Result<Member, Raised>)
    ensures r.Ok? <==>
      found.Some? && owner != Some(found.value.id) && found.value.id != author.id
      && !RoleAtLeast(found.value.topRole, author.topRole) && !RoleAtLeast(found.value.topRole, me.topRole)
    ensures r.Ok? ==> r.value == found.value
    ensures found.None? ==> r == Err(MemberNotFound(argument))
    ensures found.Some? && owner == Some(found.value.id) ==> r == Err(BadArgument(OwnerMessage))
    ensures found.Some? && owner != Some(found.value.id) && found.value.id == author.id ==>
      r == Err(BadArgument(SelfMessage))
    ensures (found.Some? && owner != Some(found.value.id) && found.value.id != author.id
             && RoleAtLeast(found.value.topRole, author.topRole)) ==>
            r == Err(BadArgument(AboveAuthorMessage))
    ensures (found.Some? && owner != Some(found.value.id) && found.value.id != author.id
             && !RoleAtLeast(found.value.topRole, author.topRole) && RoleAtLeast(found.value.topRole, me.topRole)) ==>
            r == Err(BadArgument(AboveBotMessage))
  {
    match found
    case None => Err(MemberNotFound(argument))
    case Some(member) =>
      if owner == Some(member.id) then Err(BadArgument(OwnerMessage))
      else if member.id == author.id then Err(BadArgument(SelfMessage))
      else if RoleAtLeast(member.topRole, author.topRole) then Err(BadArgument(AboveAuthorMessage))
      else if RoleAtLeast(member.topRole, me.topRole) then Err(BadArgument(AboveBotMessage))
      else Ok(member)
  }

  /** `time_dict`: seconds per unit letter. */
  const TimeDict: map<char, real> := map['h' := 3600.0, 's' := 1.0, 'm' := 60.0, 'd' := 86400.0]

  /** The unit class `[smhd]` of `time_regex`. */
  predicate IsUnit(c: char) { c == 's' || c == 'm' || c == 'h' || c == 'd' }

  /** The optional separator class `[.,]` of `time_regex`. */
  predicate IsSeparator(c: char) { c == '.' || c == ',' }

  /** One `findall` result of `time_regex`: the quantity group and the unit group. */
  datatype TimeMatch = TimeMatch(quantity: string, unit: char)

  /** Length of the run of ASCII digits that starts at `p`. */
  function DigitRun(s: string, p: nat): (n: nat)
    requires p <= |s|
    ensures p + n <= |s|
    decreases |s| - p
  {
    if p < |s| && IsDigit(s[p]) then 1 + DigitRun(s, p + 1) else 0
  }

  lemma {:induction false} DigitRunDigits(s: string, p: nat, k: nat)
    requires p <= |s| && k < DigitRun(s, p)
    ensures IsDigit(s[p + k])
    decreases |s| - p
  {
    if k > 0 { DigitRunDigits(s, p + 1, k - 1); }
  }

  lemma {:induction false} DigitRunEnds(s: string, p: nat)
    requires p <= |s|
    ensures p + DigitRun(s, p) < |s| ==> !IsDigit(s[p + DigitRun(s, p)])
    decreases |s| - p
  {
    if p < |s| && IsDigit(s[p]) { DigitRunEnds(s, p + 1); }
  }

  /**
   * The match of `(\d{1,5}(?:[.,]?\d{1,5})?)([smhd])` that the regex engine finds when
   * it starts at `p`, with the index just past it. Backtracking leaves two shapes:
   * up to ten digits directly followed by a unit, or up to five digits, a separator,
   * up to five digits and a unit, each run taken whole.
   */
  function MatchAt(s: string, p: nat): (r: Option<(TimeMatch, nat)>)
    requires p <= |s|
    ensures r.Some? ==> p < r.value.1 <= |s|
  {
    var n1 := DigitRun(s, p);
    var e := p + n1;
    if n1 == 0 || e >= |s| then None
    else if IsUnit(s[e]) && n1 <= 10 then Some((TimeMatch(s[p..e], s[e]), e + 1))
    else if IsSeparator(s[e]) && n1 <= 5 then
      var n2 := DigitRun(s, e + 1);
      var e2 := e + 1 + n2;
      if 1 <= n2 <= 5 && e2 < |s| && IsUnit(s[e2]) then Some((TimeMatch(s[p..e2], s[e2]), e2 + 1))
      else None
    else None
  }

  /** `time_regex.findall(s[p..])`: leftmost matches, each search resuming after the last match. */
  function FindAll(s: string, p: nat): seq<TimeMatch>
    requires p <= |s|
    decreases |s| - p
  {
    if p == |s| then []
    else match MatchAt(s, p)
      case Some((m, e)) => [m] + FindAll(s, e)
      case None => FindAll(s, p + 1)
  }

  /** The shape of a matched quantity: 1-10 digits, or 1-5 digits, '.' or ',', and 1-5 digits. */
  predicate WellFormedQuantity(q: string) {
    (1 <= |q| <= 10 && AllDigits(q)) || QuantitySplit(q, DigitRun(q, 0))
  }

  predicate QuantitySplit(q: string, k: int) {
    1 <= k <= 5 && k + 1 < |q| <= k + 6 && AllDigits(q[..k]) && IsSeparator(q[k]) && AllDigits(q[k + 1..])
  }

  predicate WellFormed(m: TimeMatch) {
    IsUnit(m.unit) && m.unit in TimeDict && WellFormedQuantity(m.quantity)
  }

  predicate AllWellFormed(matches: seq<TimeMatch>) {
    forall i :: 0 <= i < |matches| ==> WellFormed(matches[i])
  }

  lemma MatchAtWellFormed(s: string, p: nat)
    requires p <= |s| && MatchAt(s, p).Some?
    ensures WellFormed(MatchAt(s, p).value.0)
  {
    var n1 := DigitRun(s, p);
    var e := p + n1;
    if IsUnit(s[e]) && n1 <= 10 {
      var q := s[p..e];
      forall k | 0 <= k < n1 ensures IsDigit(q[k]) { DigitRunDigits(s, p, k); }
    } else {
      SplitQuantity(s, p, n1, DigitRun(s, e + 1));
    }
  }

  /** The separated shape: `n1` digits, the separator, `n2` digits; the first run is read back whole. */
  lemma SplitQuantity(s: string, p: nat, n1: nat, n2: nat)
    requires p + n1 + 1 + n2 <= |s|
    requires n1 == DigitRun(s, p) && n2 == DigitRun(s, p + n1 + 1)
    requires 1 <= n1 <= 5 && 1 <= n2 <= 5 && IsSeparator(s[p + n1])
    ensures DigitRun(s[p..p + n1 + 1 + n2], 0) == n1
    ensures QuantitySplit(s[p..p + n1 + 1 + n2], n1)
  {
    var q := s[p..p + n1 + 1 + n2];
    var head, tail := q[..n1], q[n1 + 1..];
    forall i | 0 <= i < n1 ensures IsDigit(q[i]) && IsDigit(head[i]) { DigitRunDigits(s, p, i); }
    forall k | 0 <= k < n2 ensures IsDigit(tail[k]) {
      DigitRunDigits(s, p + n1 + 1, k);
      assert tail[k] == s[p + n1 + 1 + k];
    }
    assert q[n1] == s[p + n1];
    DigitRunExact(q, n1, 0);
  }

  /**
   * Every match has a unit that is a key of `time_dict` (so the KeyError branch of
   * the converter is unreachable) and a quantity of the regex's shape.
   */
  lemma {:induction false} FindAllWellFormed(s: string, p: nat)
    requires p <= |s|
    ensures AllWellFormed(FindAll(s, p))
    decreases |s| - p
  {
    if p < |s| {
      match MatchAt(s, p)
      case Some((m, e)) =>
        MatchAtWellFormed(s, p);
        FindAllWellFormed(s, e);
      case None =>
        FindAllWellFormed(s, p + 1);
    }
  }

  lemma {:induction false} DigitRunExact(q: string, k: nat, p: nat)
    requires p <= k < |q|
    requires forall i :: p <= i < k ==> IsDigit(q[i])
    requires !IsDigit(q[k])
    ensures DigitRun(q, p) == k - p
    decreases k - p
  {
    if p < k { DigitRunExact(q, k, p + 1); }
  }

  /** Text without digits produces no match. */
  lemma {:induction false} NoDigitsNoMatches(s: string, p: nat)
    requires p <= |s|
    requires forall i :: p <= i < |s| ==> !IsDigit(s[i])
    ensures FindAll(s, p) == []
    decreases |s| - p
  {
    if p < |s| {
      NoDigitsNoMatches(s, p + 1);
    }
  }

  lemma {:induction false} DigitRunShift(x: string, y: string, p: nat)
    requires p <= |y|
    ensures DigitRun(x + y, |x| + p) == DigitRun(y, p)
    decreases |y| - p
  {
    if p < |y| {
      assert (x + y)[|x| + p] == y[p];
      DigitRunShift(x, y, p + 1);
    }
  }

  lemma MatchAtShift(x: string, y: string, p: nat)
    requires p <= |y|
    ensures MatchAt(x + y, |x| + p) ==
      match MatchAt(y, p)
      case Some((m, e)) => Some((m, |x| + e))
      case None => None
  {
    DigitRunShift(x, y, p);
    var n1 := DigitRun(y, p);
    var e := p + n1;
    if n1 > 0 && e < |y| {
      ShiftedSlice(x, y, p, e);
      if !(IsUnit(y[e]) && n1 <= 10) && IsSeparator(y[e]) && n1 <= 5 {
        DigitRunShift(x, y, e + 1);
        var e2 := e + 1 + DigitRun(y, e + 1);
        if e2 < |y| {
          ShiftedSlice(x, y, p, e2);
        }
      }
    }
  }

  lemma ShiftedSlice(x: string, y: string, p: nat, e: nat)
    requires p <= e < |y|
    ensures (x + y)[|x| + e] == y[e]
    ensures (x + y)[|x| + p..|x| + e] == y[p..e]
  {
  }

  lemma {:induction false} FindAllShift(x: string, y: string, p: nat)
    requires p <= |y|
    ensures FindAll(x + y, |x| + p) == FindAll(y, p)
    decreases |y| - p
  {
    if p < |y| {
      MatchAtShift(x, y, p);
      match MatchAt(y, p)
      case Some((m, e)) => FindAllShift(x, y, e);
      case None => FindAllShift(x, y, p + 1);
    }
  }

  /** Text in front of the first digit is ignored: it neither adds nor changes matches. */
  lemma IgnoresLeadingText(x: string, y: string)
    requires forall i :: 0 <= i < |x| ==> !IsDigit(x[i])
    ensures FindAll(x + y, 0) == FindAll(y, 0)
  {
    SkipNonDigits(x + y, 0, |x|);
    FindAllShift(x, y, 0);
  }

  lemma {:induction false} SkipNonDigits(s: string, p: nat, q: nat)
    requires p <= q <= |s|
    requires forall i :: p <= i < q ==> !IsDigit(s[i])
    ensures FindAll(s, p) == FindAll(s, q)
    decreases q - p
  {
    if p < q {
      SkipNonDigits(s, p + 1, q);
    }
  }

  /** `float(v)` on a matched quantity: a ',' separator is a ValueError. */
  function QuantityValue(q: string): Option<real>
    requires WellFormedQuantity(q)
  {
    if AllDigits(q) then Some(DigitsValue(q) as real)
    else
      var k := DigitRun(q, 0);
      if q[k] == ',' then None
      else Some(DigitsValue(q[..k]) as real + DigitsValue(q[k + 1..]) as real / Pow10(|q| - k - 1) as real)
  }

  function NotANumber(q: string): Raised {
    BadArgument(q + " is not a number!")
  }

  /** Add `t` to a successful duration; an error stays as it is. */
  function Plus(r: Result<real, Raised>, t: real): Result<real, Raised> {
    match r
    case Ok(d) => Ok(d + t)
    case Err(e) => Err(e)
  }

  /** `time_dict[unit] * float(v)` for one match; None when the quantity is not a number. */
  function Seconds(m: TimeMatch): Option<real>
    requires WellFormed(m)
  {
    match QuantityValue(m.quantity)
    case None => None
    case Some(v) => Some(TimeDict[m.unit] * v)
  }

  /** Σ `time_dict[unit]` × quantity over the matches; the first non-number raises. */
  function Duration(matches: seq<TimeMatch>): Result<real, Raised>
    requires AllWellFormed(matches)
  {
    if matches == [] then Ok(0.0)
    else
      match Seconds(matches[0])
      case None => Err(NotANumber(matches[0].quantity))
      case Some(t) => Plus(Duration(matches[1..]), t)
  }

  lemma DurationAt(matches: seq<TimeMatch>, i: nat)
    requires AllWellFormed(matches) && i < |matches|
    ensures AllWellFormed(matches[i + 1..]) && WellFormed(matches[i])
    ensures Duration(matches[i..]) ==
      match Seconds(matches[i])
      case None => Err(NotANumber(matches[i].quantity))
      case Some(t) => Plus(Duration(matches[i + 1..]), t)
  {
    assert matches[i..][0] == matches[i] && matches[i..][1..] == matches[i + 1..];
  }

  lemma PlusPlus(r: Result<real, Raised>, a: real, b: real)
    ensures Plus(Plus(r, a), b) == Plus(r, b + a)
  {
  }

  /** What `TimeConverter.convert(argument)` returns at time `now`. */
  function TimeSpec(argument: string, now: real): Result<real, Raised> {
    var matches := FindAll(Lower(argument), 0);
    FindAllWellFormed(Lower(argument), 0);
    InRange(Plus(Duration(matches), now))
  }

  /**
   * `datetime.max`, the last microsecond of year 9999, in seconds since the epoch.
   * `now` is a clock reading, so a total that passes this bound is the only way
   * `utcnow() + timedelta(seconds=time)` can overflow.
   */
  const MaxMoment: real := 253402300799.999999

  /** The addition of the total to `now` raises OverflowError past `datetime.max`. */
  function InRange(end: Result<real, Raised>): Result<real, Raised> {
    if end.Ok? && end.value > MaxMoment then Err(OverflowError) else end
  }

  /**
   * `TimeConverter.convert`: lower-case the argument, find every (quantity, unit)
   * match and add up the seconds; the end time is `now` plus the total, unless
   * that lies beyond `datetime.max`.
   */
  method ConvertTime(argument: string, now: real) returns (r: Result<real, Raised>)
    ensures r == TimeSpec(argument, now)
  {
    var matches := FindAll(Lower(argument), 0);
    FindAllWellFormed(Lower(argument), 0);
    r := AddDurations(matches, now);
    if r.Ok? && r.value > MaxMoment {
      r := Err(OverflowError);
    }
  }

  /** The loop of `convert`: seconds are added match by match; the first non-number returns its error. */
  method AddDurations(matches: seq<TimeMatch>, now: real) returns (r: Result<real, Raised>)
    requires AllWellFormed(matches)
    ensures r == Plus(Duration(matches), now)
  {
    var time := 0.0;
    var i := 0;
    assert matches[0..] == matches;
    while i < |matches|
      invariant 0 <= i <= |matches|
      invariant AllWellFormed(matches[i..])
      invariant Duration(matches) == Plus(Duration(matches[i..]), time)
    {
      var m := matches[i];
      DurationAt(matches, i);
      var seconds := Seconds(m);
      if seconds.None? {
        return Err(NotANumber(m.quantity));
      }
      PlusPlus(Duration(matches[i + 1..]), seconds.value, time);
      time := time + seconds.value;
      i := i + 1;
    }
    r := Ok(now + time);
  }

  /** The argument is lower-cased first, so letter case never changes the result. */
  lemma TimeCaseInsensitive(argument: string, now: real)
    ensures TimeSpec(argument, now) == TimeSpec(Lower(argument), now)
  {
    LowerIdempotent(argument);
  }

  /** An argument in which nothing matches gives a duration of zero: the result is `now`. */
  lemma NoMatchIsNow(argument: string, now: real)
    requires FindAll(Lower(argument), 0) == [] && now <= MaxMoment
    ensures TimeSpec(argument, now) == Ok(now)
  {
  }

  /** Upper- and lower-case units read the same: "2H" is two hours, like "2h". */
  lemma TwoHours(now: real)
    requires now + 7200.0 <= MaxMoment
    ensures TimeSpec("2H", now) == TimeSpec("2h", now) == Ok(now + 7200.0)
  {
    assert Lower("2H") == "2h";
    assert Lower("2h") == "2h";
    var s := "2h";
    assert DigitRun(s, 1) == 0;
    assert DigitRun(s, 0) == 1;
    assert s[0..1] == "2";
    assert MatchAt(s, 0) == Some((TimeMatch("2", 'h'), 2));
    assert FindAll(s, 0) == [TimeMatch("2", 'h')];
    assert DigitsValue("2") == 2;
    assert QuantityValue("2") == Some(2.0);
    assert Duration([TimeMatch("2", 'h')]) == Ok(7200.0);
  }

  /** Three million days (about 8,200 years) from any moment after the epoch passes year 9999 and overflows. */
  lemma HugeDurationOverflows(now: real)
    requires now >= 0.0
    ensures TimeSpec("3000000d", now) == Err(OverflowError)
  {
    var s := "3000000d";
    assert Lower(s) == s;
    assert DigitRun(s, 8) == 0;
    assert DigitRun(s, 7) == 0;
    assert DigitRun(s, 6) == 1;
    assert DigitRun(s, 5) == 2;
    assert DigitRun(s, 4) == 3;
    assert DigitRun(s, 3) == 4;
    assert DigitRun(s, 2) == 5;
    assert DigitRun(s, 1) == 6;
    assert DigitRun(s, 0) == 7;
    assert s[0..7] == "3000000";
    assert MatchAt(s, 0) == Some((TimeMatch("3000000", 'd'), 8));
    assert FindAll(s, 0) == [TimeMatch("3000000", 'd')];
    assert DigitsValue("3") == 3;
    assert "30"[..1] == "3";
    assert DigitsValue("30") == 30;
    assert "300"[..2] == "30";
    assert DigitsValue("300") == 300;
    assert "3000"[..3] == "300";
    assert DigitsValue("3000") == 3000;
    assert "30000"[..4] == "3000";
    assert DigitsValue("30000") == 30000;
    assert "300000"[..5] == "30000";
    assert DigitsValue("300000") == 300000;
    assert "3000000"[..6] == "300000";
    assert DigitsValue("3000000") == 3000000;
    assert QuantityValue("3000000") == Some(3000000.0);
    assert Duration([TimeMatch("3000000", 'd')]) == Ok(259200000000.0);
  }

  /** A comma decimal matches the regex but is not a number, so the converter raises. */
  lemma CommaRaises(now: real)
    ensures TimeSpec("1,5h", now) == Err(NotANumber("1,5"))
  {
    var s := "1,5h";
    assert Lower(s) == s;
    assert DigitRun(s, 4) == 0;
    assert DigitRun(s, 3) == 0;
    assert DigitRun(s, 2) == 1;
    assert DigitRun(s, 1) == 0;
    assert DigitRun(s, 0) == 1;
    assert s[0..3] == "1,5";
    assert MatchAt(s, 0) == Some((TimeMatch("1,5", 'h'), 4));
    assert FindAll(s, 0) == [TimeMatch("1,5", 'h')];
    assert QuantitySplit("1,5", 1);
  }

  /** Name lookup in `LoggingEnum.__members__`. */
  function MemberNamed(name: string): (r: Option<LogOption>)
    ensures r.Some? ==> LogName(r.value) == name
    ensures r.None? ==> forall o :: LogName(o) != name
  {
    if name == "NONE" then Some(LogOption.NONE)
    else if name == "MESSAGE" then Some(MESSAGE)
    else if name == "CHANNELS" then Some(CHANNELS)
    else if name == "GUILD" then Some(GUILD)
    else if name == "MEMBER" then Some(MEMBER)
    else if name == "MODERATION" then Some(MODERATION)
    else None
  }

  function SpacesToUnderscores(s: string): string {
    seq(|s|, i requires 0 <= i < |s| => if s[i] == ' ' then '_' else s[i])
  }

  /**
   * `OptionsConverter.convert`: the membership test is made on the upper-cased
   * argument with spaces turned into '_', the lookup on the upper-cased argument.
   * Exactly the member names are accepted, in any letter case.
   */
  function ConvertOption(argument: string): (r: Result<LogOption, Raised>)
    ensures r.Ok? <==> MemberNamed(Upper(argument)).Some?
    ensures r.Ok? ==> LogName(r.value) == Upper(argument)
    ensures r.Err? ==> r.error == BadArgument("Not a valid argument.")
  {
    var key := SpacesToUnderscores(Upper(argument));
    if MemberNamed(key).None? then Err(BadArgument("Not a valid argument."))
    else
      assert forall i :: 0 <= i < |key| ==> key[i] != '_' by {
        var o := MemberNamed(key).value;
        assert LogName(o) == key;
      }
      assert key == Upper(argument);
      Ok(MemberNamed(Upper(argument)).value)
  }

  /** `AttachmentConverter.convert`: the first attachment of the message, or BadArgument. */
  function ConvertAttachment<A>(attachments: seq<A>): (r: Result<A, Raised>)
    ensures r.Ok? <==> |attachments| > 0
    ensures r.Ok? ==> r.value == attachments[0]
    ensures r.Err? ==> r.error == BadArgument("No attachment provided.")
  {
    if |attachments| > 0 then Ok(attachments[0]) else Err(BadArgument("No attachment provided."))
  }
}
