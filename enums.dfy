/**
 * The bit-flag enumerations of the bot: which event categories a guild logs
 * (`LoggingEnum`) and which automod checks exist (`AutomodEnum`), with the reading
 * of a stored binary string back into a flag.
 */
module Enums {
  import opened Wrappers
  import Text

  function Pow2(k: nat): (r: nat)
    ensures r >= 1
  {
    if k == 0 then 1 else 2 * Pow2(k - 1)
  }

  /** Bit `k` of `v` is set (least significant bit is bit 0). */
  predicate Bit(v: nat, k: nat) {
    if k == 0 then v % 2 == 1 else Bit(v / 2, k - 1)
  }

  /** The logging categories, in declaration order. */
  datatype LogOption = NONE | MESSAGE | CHANNELS | GUILD | MEMBER | MODERATION

  const LogOptions: seq<LogOption> := [LogOption.NONE, MESSAGE, CHANNELS, GUILD, MEMBER, MODERATION]

  /** The automod categories, in declaration order. */
  datatype AutomodOption = NONE | LINKS | MENTIONS

  /** Position of a category in its declaration, which `auto()` turns into its bit. */
  function LogIndex(o: LogOption): nat {
    match o
    case NONE => 0
    case MESSAGE => 1
    case CHANNELS => 2
    case GUILD => 3
    case MEMBER => 4
    case MODERATION => 5
  }

  /** The integer value `auto()` gives each member of `LoggingEnum`. */
  function LogValue(o: LogOption): nat {
    match o
    case NONE => 1
    case MESSAGE => 2
    case CHANNELS => 4
    case GUILD => 8
    case MEMBER => 16
    case MODERATION => 32
  }

  /** The integer value `auto()` gives each member of `AutomodEnum`. */
  function AutomodValue(o: AutomodOption): nat {
    match o
    case NONE => 1
    case LINKS => 2
    case MENTIONS => 4
  }

  function AutomodIndex(o: AutomodOption): nat {
    match o
    case NONE => 0
    case LINKS => 1
    case MENTIONS => 2
  }

  function LogName(o: LogOption): string {
    match o
    case NONE => "NONE"
    case MESSAGE => "MESSAGE"
    case CHANNELS => "CHANNELS"
    case GUILD => "GUILD"
    case MEMBER => "MEMBER"
    case MODERATION => "MODERATION"
  }

  /**
   * `o in flag`: Python tests `o.value & flag == o.value`, which for the single-bit
   * members here is the test of one bit.
   */
  predicate Has(flag: nat, o: LogOption) {
    Bit(flag, LogIndex(o))
  }

  lemma {:induction false} BitOfPow2(i: nat, j: nat)
    ensures Bit(Pow2(i), j) <==> i == j
  {
    if i == 0 {
      if j > 0 { BitOfZero(j - 1); }
    } else if j == 0 {
      assert Pow2(i) % 2 == 0;
    } else {
      assert Pow2(i) / 2 == Pow2(i - 1);
      BitOfPow2(i - 1, j - 1);
    }
  }

  lemma Pow2Table()
    ensures Pow2(0) == 1 && Pow2(1) == 2 && Pow2(2) == 4
    ensures Pow2(3) == 8 && Pow2(4) == 16 && Pow2(5) == 32
  {
    assert Pow2(1) == 2;
    assert Pow2(2) == 4;
    assert Pow2(3) == 8;
    assert Pow2(4) == 16;
  }

  lemma {:induction false} BitOfZero(j: nat)
    ensures !Bit(0, j)
  {
    if j > 0 { BitOfZero(j - 1); }
  }

  /** Every member's value is a single bit, its own, and no two members share one. */
  lemma LogValuesAreDistinctBits(o: LogOption, p: LogOption)
    ensures LogValue(o) == Pow2(LogIndex(o))
    ensures Has(LogValue(o), p) <==> o == p
    ensures o != p ==> LogValue(o) != LogValue(p)
  {
    Pow2Table();
    BitOfPow2(LogIndex(o), LogIndex(p));
  }

  /** The automod members are single distinct bits too. */
  lemma AutomodValuesAreDistinctBits(o: AutomodOption, p: AutomodOption)
    ensures AutomodValue(o) == Pow2(AutomodIndex(o))
    ensures Bit(AutomodValue(o), AutomodIndex(p)) <==> o == p
  {
    Pow2Table();
    BitOfPow2(AutomodIndex(o), AutomodIndex(p));
  }

  /** Setting a clear bit sets that bit and leaves every other bit as it was. */
  lemma {:induction false} BitAddAt(u: nat, k: nat, j: nat)
    requires !Bit(u, k)
    ensures Bit(u + Pow2(k), j) <==> (j == k || Bit(u, j))
  {
    if k == 0 {
      if j > 0 {
        assert (u + 1) / 2 == u / 2;
      }
    } else {
      var m := Pow2(k - 1);
      assert (u + 2 * m) % 2 == u % 2;
      assert (u + 2 * m) / 2 == u / 2 + m;
      if j > 0 {
        BitAddAt(u / 2, k - 1, j - 1);
      }
    }
  }

  /** Clearing a set bit clears that bit and leaves every other bit as it was. */
  lemma {:induction false} BitSubAt(v: nat, k: nat, j: nat)
    requires Bit(v, k)
    ensures v >= Pow2(k)
    ensures Bit(v - Pow2(k), j) <==> (j != k && Bit(v, j))
  {
    if k == 0 {
      if j > 0 {
        assert (v - 1) / 2 == v / 2;
      }
    } else {
      var m := Pow2(k - 1);
      BitSubAt(v / 2, k - 1, if j > 0 then j - 1 else 0);
      HalveAfterSub(v, m);
    }
  }

  lemma HalveAfterSub(v: nat, m: nat)
    requires v / 2 >= m
    ensures v >= 2 * m
    ensures (v - 2 * m) % 2 == v % 2
    ensures (v - 2 * m) / 2 == v / 2 - m
  {
  }

  /** `sum(options)`: Python adds the members' integer values. */
  function Sum(options: seq<LogOption>): nat {
    if options == [] then 0 else LogValue(options[0]) + Sum(options[1..])
  }

  predicate Distinct<T(==)>(s: seq<T>) {
    forall i, j :: 0 <= i < j < |s| ==> s[i] != s[j]
  }

  /** For distinct options the sum is their bitwise OR: exactly the chosen bits are set. */
  lemma {:induction false} SumOfDistinct(options: seq<LogOption>, o: LogOption)
    requires Distinct(options)
    ensures Has(Sum(options), o) <==> o in options
  {
    if options == [] {
      BitOfZero(LogIndex(o));
    } else {
      var rest := options[1..];
      assert Distinct(rest);
      assert options[0] !in rest;
      SumOfDistinct(rest, options[0]);
      SumOfDistinct(rest, o);
      LogValuesAreDistinctBits(options[0], o);
      BitAddAt(Sum(rest), LogIndex(options[0]), LogIndex(o));
      assert o in options <==> o == options[0] || o in rest;
    }
  }

  /** Repeating an option adds its value twice: MESSAGE twice is the value of CHANNELS. */
  lemma RepeatedOptionCarries()
    ensures Sum([MESSAGE, MESSAGE]) == LogValue(CHANNELS)
    ensures !Has(Sum([MESSAGE, MESSAGE]), MESSAGE) && Has(Sum([MESSAGE, MESSAGE]), CHANNELS)
  {
  }

  /** NONE is a bit of its own, so it can be stored together with other categories. */
  lemma NoneCombines()
    ensures Has(Sum([LogOption.NONE, MESSAGE]), LogOption.NONE) && Has(Sum([LogOption.NONE, MESSAGE]), MESSAGE)
    ensures !Has(Sum([]), LogOption.NONE)
  {
  }

  /** The set bits of `flag` below `n`, highest first. */
  function SetBitsBelow(flag: nat, n: nat): (ks: seq<nat>)
    ensures forall j: nat :: j in ks <==> j < n && Bit(flag, j)
    ensures forall i, i' :: 0 <= i < i' < |ks| ==> ks[i] > ks[i']
  {
    if n == 0 then []
    else
      var high := if Bit(flag, n - 1) then [n - 1] else [];
      var rest := SetBitsBelow(flag, n - 1);
      assert forall j: nat :: j in high + rest <==> j in high || j in rest;
      assert forall i :: 0 <= i < |rest| ==> rest[i] in rest;
      high + rest
  }

  lemma {:induction false} Pow2Exceeds(k: nat)
    ensures Pow2(k) > k
  {
    if k > 0 { Pow2Exceeds(k - 1); }
  }

  /** The set bits of a flag, highest value first. */
  function SetBits(flag: nat): (ks: seq<nat>)
    ensures forall j: nat :: j in ks <==> Bit(flag, j)
    ensures forall i, i' :: 0 <= i < i' < |ks| ==> ks[i] > ks[i']
  {
    assert forall j: nat :: Bit(flag, j) ==> j < flag by {
      forall j: nat | Bit(flag, j) ensures j < flag {
        BitSubAt(flag, j, j);
        Pow2Exceeds(j);
      }
    }
    SetBitsBelow(flag, flag)
  }

  /** `str(m._value_)` of the unnamed single-bit pseudo-member for bit `k`. */
  function PseudoName(k: nat): string {
    Text.NatToString(Pow2(k))
  }

  /** `str(m._name_ or m._value_)` for the single-bit member of bit `k`. */
  function BitName(k: nat): string {
    if k < |LogOptions| then LogName(LogOptions[k]) else PseudoName(k)
  }

  /**
   * Iterating a flag, as `_decompose` lists its members: the members whose bit is
   * set, sorted by value from the highest down. A bit above MODERATION is an
   * unnamed pseudo-member, which `LoggingEnum(n)` creates for every extra bit of
   * `n`, and yields its value. The flag 0 has no set bit, so `_decompose` falls
   * back to its own pseudo-member and yields "0".
   */
  function Iter(flag: nat): (names: seq<string>)
    ensures flag == 0 ==> names == ["0"]
    ensures flag > 0 ==>
      |names| == |SetBits(flag)| && forall i :: 0 <= i < |names| ==> names[i] == BitName(SetBits(flag)[i])
    ensures forall o :: LogName(o) in names <==> Has(flag, o)
    ensures forall k: nat :: k >= |LogOptions| ==> (PseudoName(k) in names <==> Bit(flag, k))
  {
    if flag == 0 then
      assert forall o :: LogName(o) != "0";
      assert forall k: nat :: PseudoName(k) != "0" by {
        forall k: nat ensures PseudoName(k) != "0" { PseudoNotZero(k); }
      }
      assert forall k: nat :: !Bit(0, k) by {
        forall k: nat ensures !Bit(0, k) { BitOfZero(k); }
      }
      ["0"]
    else
      var ks := SetBits(flag);
      var names := seq(|ks|, i requires 0 <= i < |ks| => BitName(ks[i]));
      assert forall o :: LogName(o) in names <==> Has(flag, o) by {
        forall o ensures LogName(o) in names <==> Has(flag, o) {
          if LogName(o) in names {
            var i :| 0 <= i < |names| && names[i] == LogName(o);
            BitNameIsLogName(ks[i], o);
          }
          if Has(flag, o) {
            assert LogIndex(o) in ks;
            var i :| 0 <= i < |ks| && ks[i] == LogIndex(o);
            BitNameIsLogName(ks[i], o);
            assert names[i] == LogName(o);
          }
        }
      }
      assert forall k: nat :: k >= |LogOptions| ==> (PseudoName(k) in names <==> Bit(flag, k)) by {
        forall k: nat | k >= |LogOptions| ensures PseudoName(k) in names <==> Bit(flag, k) {
          if PseudoName(k) in names {
            var i :| 0 <= i < |names| && names[i] == PseudoName(k);
            BitNameIsPseudoName(ks[i], k);
          }
          if Bit(flag, k) {
            var i :| 0 <= i < |ks| && ks[i] == k;
            BitNameIsPseudoName(ks[i], k);
            assert names[i] == PseudoName(k);
          }
        }
      }
      names
  }

  /** A single bit above MODERATION iterates as its value alone. */
  lemma {:induction false} SingleExtraBit(k: nat)
    requires k >= |LogOptions|
    ensures Iter(Pow2(k)) == [PseudoName(k)]
  {
    var ks := SetBits(Pow2(k));
    forall j: nat ensures j in ks <==> j == k {
      BitOfPow2(k, j);
    }
    assert k in ks;
    assert ks[0] in ks && ks[|ks| - 1] in ks;
  }

  /**
   * MODERATION chosen twice stores 64, bit 6, one above every member, whose
   * pseudo-member is named "64": by `SingleExtraBit` that flag iterates as "64".
   */
  lemma RepeatedModerationIsExtraBit()
    ensures Sum([MODERATION, MODERATION]) == Pow2(|LogOptions|)
    ensures PseudoName(|LogOptions|) == "64"
  {
    Pow2Table();
    assert Pow2(6) == 64;
  }

  /** A pseudo-member's name is a decimal rendering, which starts with a digit. */
  lemma PseudoNameStartsWithDigit(k: nat)
    ensures |PseudoName(k)| >= 1 && Text.IsDigit(PseudoName(k)[0])
  {
    Text.NatToStringRoundTrip(Pow2(k));
  }

  lemma PseudoNotZero(k: nat)
    ensures PseudoName(k) != "0"
  {
    Text.NatToStringRoundTrip(Pow2(k));
  }

  /** A bit's string is a member's name exactly when the bit is that member's. */
  lemma BitNameIsLogName(k: nat, o: LogOption)
    ensures BitName(k) == LogName(o) <==> k == LogIndex(o)
  {
    if k < |LogOptions| {
      if BitName(k) == LogName(o) {
        LogNameInjective(LogOptions[k], o);
      }
    } else {
      PseudoNameStartsWithDigit(k);
      assert !Text.IsDigit(LogName(o)[0]);
    }
  }

  /** A bit's string is the value of bit `j` above MODERATION exactly when it is bit `j`. */
  lemma BitNameIsPseudoName(k: nat, j: nat)
    requires j >= |LogOptions|
    ensures BitName(k) == PseudoName(j) <==> k == j
  {
    if k < |LogOptions| {
      PseudoNameStartsWithDigit(j);
      assert !Text.IsDigit(LogName(LogOptions[k])[0]);
    } else if PseudoName(k) == PseudoName(j) {
      Text.NatToStringRoundTrip(Pow2(k));
      Text.NatToStringRoundTrip(Pow2(j));
      BitOfPow2(k, k);
      BitOfPow2(j, k);
    }
  }

  lemma LogNameInjective(o: LogOption, p: LogOption)
    requires LogName(o) == LogName(p)
    ensures o == p
  {
  }

  predicate IsBinaryDigit(c: char) { c == '0' || c == '1' }

  function BinaryValue(s: string): nat
    requires forall i :: 0 <= i < |s| ==> IsBinaryDigit(s[i])
  {
    if s == [] then 0 else 2 * BinaryValue(s[..|s| - 1]) + (if s[|s| - 1] == '1' then 1 else 0)
  }

  /**
   * `int(s, 2)`: an optional `0b`/`0B` prefix, then one or more binary digits;
   * anything else raises ValueError, modelled as `None`.
   */
  function ParseBinary(s: string): Option<nat> {
    var digits := if |s| >= 2 && s[0] == '0' && (s[1] == 'b' || s[1] == 'B') then s[2..] else s;
    if digits != [] && forall i :: 0 <= i < |digits| ==> IsBinaryDigit(digits[i])
    then Some(BinaryValue(digits))
    else None
  }

  /** `LoggingEnum.from_binary(s)`: the flag whose value is `s` read in base 2. */
  function FromBinary(s: string): Option<nat> {
    ParseBinary(s)
  }

  function BinaryDigits(n: nat): string {
    if n < 2 then (if n == 1 then "1" else "0")
    else BinaryDigits(n / 2) + (if n % 2 == 1 then "1" else "0")
  }

  /** `bin(n)` for a non-negative integer. */
  function Bin(n: nat): string {
    "0b" + BinaryDigits(n)
  }

  lemma {:induction false} BinaryDigitsRoundTrip(n: nat)
    ensures |BinaryDigits(n)| >= 1
    ensures forall i :: 0 <= i < |BinaryDigits(n)| ==> IsBinaryDigit(BinaryDigits(n)[i])
    ensures BinaryValue(BinaryDigits(n)) == n
  {
    if n >= 2 {
      BinaryDigitsRoundTrip(n / 2);
      var s := BinaryDigits(n);
      assert s[..|s| - 1] == BinaryDigits(n / 2);
    }
  }

  /** `from_binary(bin(n))` gives back `n`. */
  lemma BinRoundTrip(n: nat)
    ensures FromBinary(Bin(n)) == Some(n)
  {
    BinaryDigitsRoundTrip(n);
    assert Bin(n)[2..] == BinaryDigits(n);
  }
}
