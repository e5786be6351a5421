/** Variable-length integers of the Negentropy wire format: most significant 7-bit group first,
    every byte but the last carrying the continuation bit. */
module Codec {
  import opened Sets

  type byte = x: int | 0 <= x < 0x100
  type u64 = x: int | 0 <= x <= 0xFFFF_FFFF_FFFF_FFFF
  const MAX_U64: u64 := 0xFFFF_FFFF_FFFF_FFFF

  datatype Error =
    | ParseEndsPrematurely
    | BadRange
    | IdTooBig
    | UnexpectedMode(mode: u64)
    | ProtocolVersionNotFound
    | InvalidProtocolVersion
    | UnsupportedProtocolVersion
    | FrameSizeLimitTooSmall
    | AlreadyBuiltInitialMessage
    | Initiator
    | NonInitiator
    | InvalidFrame
    | InvalidWindow
    | InvalidLimits
    | ConflictingTimestamps
    | TooManyRecords
    | FrameTooLong
    | SessionOver

  datatype Result<+T> = Ok(value: T) | Err(error: Error)

  /** What reading a value from the front of a byte string yields. */
  datatype Parsed<+T> = Got(value: T, rest: seq<byte>) | Bad(error: Error)

  // ---- What an encoded integer looks like

  /** The leading (continued) bytes that spell q, none for 0. */
  function Leading(q: nat): seq<byte> {
    if q == 0 then [] else Leading(q / 128) + [128 + q % 128]
  }

  function VarInt(n: nat): seq<byte> {
    Leading(n / 128) + [n % 128]
  }

  /** The first two lengths outright: one byte below 128, two below 16384, the more significant one first. */
  lemma VarIntOutright(n: nat)
    ensures n < 128 ==> VarInt(n) == [n]
    ensures 128 <= n < 16_384 ==> VarInt(n) == [0x80 + n / 128, n % 128]
  {
    assert Leading(0) == [];
    if 128 <= n < 16_384 {
      var q := n / 128;
      assert Leading(q) == Leading(q / 128) + [128 + q % 128] && q / 128 == 0;
    }
  }

  /** Reads at most `groups` more bytes, `acc` being the value of those already read. */
  function ReadGroups(bytes: seq<byte>, acc: u64, groups: nat): Parsed<u64>
    decreases groups
  {
    if groups == 0 then Bad(BadRange)
    else if bytes == [] then Bad(ParseEndsPrematurely)
    else
      var value := acc * 128 + bytes[0] % 128;
      if value > MAX_U64 then Bad(BadRange)
      else if bytes[0] < 128 then Got(value, bytes[1..])
      else ReadGroups(bytes[1..], value, groups - 1)
  }

  /** No 64-bit integer needs more groups. */
  function MaxGroups(): nat { 10 }

  function ReadVarInt(bytes: seq<byte>): Parsed<u64> {
    ReadGroups(bytes, 0, MaxGroups())
  }

  lemma {:induction false} ReadShrinks(bytes: seq<byte>, acc: u64, groups: nat)
    ensures ReadGroups(bytes, acc, groups).Got? ==>
              exists n :: 0 < n <= |bytes| && ReadGroups(bytes, acc, groups).rest == bytes[n..]
    decreases groups
  {
    if groups > 0 && bytes != [] {
      var value := acc * 128 + bytes[0] % 128;
      if value <= MAX_U64 && bytes[0] < 128 {
        assert bytes[1..] == ReadGroups(bytes, acc, groups).rest;
      } else if value <= MAX_U64 {
        ReadShrinks(bytes[1..], value, groups - 1);
        if ReadGroups(bytes, acc, groups).Got? {
          var n :| 0 < n <= |bytes[1..]| && ReadGroups(bytes[1..], value, groups - 1).rest == bytes[1..][n..];
          assert bytes[1..][n..] == bytes[n + 1..];
        }
      }
    }
  }

  // ---- Round trip

  function Power128(k: nat): nat {
    if k == 0 then 1 else 128 * Power128(k - 1)
  }

  lemma {:induction false} LeadingLength(q: nat, k: nat)
    requires q < Power128(k)
    ensures |Leading(q)| <= k
  {
    if q > 0 {
      assert k > 0;
      assert q / 128 < Power128(k - 1);
      LeadingLength(q / 128, k - 1);
    }
  }

  lemma VarIntLength(n: u64)
    ensures 1 <= |VarInt(n)| <= 10
    ensures n < 128 ==> |VarInt(n)| == 1
  {
    assert Power128(9) == 0x8000_0000_0000_0000 by {
      assert Power128(3) == 0x20_0000;
      assert Power128(6) == 0x400_0000_0000;
    }
    LeadingLength(n / 128, 9);
  }

  lemma {:induction false} ReadLeading(q: nat, tail: seq<byte>, groups: nat)
    requires q <= MAX_U64 && |Leading(q)| <= groups
    ensures ReadGroups(Leading(q) + tail, 0, groups) == ReadGroups(tail, q, groups - |Leading(q)|)
    decreases q
  {
    if q == 0 {
      assert Leading(q) + tail == tail;
    } else {
      var last := [128 + q % 128];
      assert Leading(q) + tail == Leading(q / 128) + (last + tail);
      ReadLeading(q / 128, last + tail, groups);
      assert (last + tail)[1..] == tail;
    }
  }

  lemma ReadFinal(q: nat, b: byte, tail: seq<byte>, groups: nat)
    requires q * 128 + b <= MAX_U64 && b < 128 && groups > 0
    ensures ReadGroups([b] + tail, q, groups) == Got(q * 128 + b, tail)
  {
    assert ([b] + tail)[1..] == tail;
  }

  /** Decoding undoes encoding for every 64-bit value, whatever follows it. */
  lemma VarIntRoundTrip(n: u64, tail: seq<byte>)
    ensures ReadVarInt(VarInt(n) + tail) == Got(n, tail)
  {
    hide Leading, ReadGroups;
    VarIntLength(n);
    var q, last := n / 128, [n % 128];
    assert VarInt(n) + tail == Leading(q) + (last + tail);
    assert |Leading(q)| <= 9;
    ReadLeading(q, last + tail, MaxGroups());
    ReadFinal(q, n % 128, tail, MaxGroups() - |Leading(q)|);
  }

  // ---- The codec itself

  /** The 7-bit groups of n, least significant first, as the encoder's loop pushes them. */
  function Groups(n: nat): seq<byte> {
    if n == 0 then [] else [n % 128] + Groups(n / 128)
  }

  /** Sets the continuation bit on the first k bytes. */
  function Continued(s: seq<byte>, k: nat): seq<byte>
    requires forall i :: 0 <= i < |s| ==> s[i] < 128
  {
    seq(|s|, i requires 0 <= i < |s| => if i < k then s[i] + 128 else s[i])
  }

  lemma {:induction false} GroupsSmall(n: nat)
    ensures forall i :: 0 <= i < |Groups(n)| ==> Groups(n)[i] < 128
    ensures n > 0 ==> Groups(n) != []
  {
    if n > 0 { GroupsSmall(n / 128); }
  }

  lemma {:induction false} GroupsSpellLeading(q: nat)
    ensures forall i :: 0 <= i < |Groups(q)| ==> Reversed(Groups(q))[i] < 128
    ensures Continued(Reversed(Groups(q)), |Groups(q)|) == Leading(q)
  {
    GroupsSmall(q);
    if q > 0 {
      GroupsSpellLeading(q / 128);
      GroupsSmall(q / 128);
      assert Reversed(Groups(q)) == Reversed(Groups(q / 128)) + [q % 128];
      assert Continued(Reversed(Groups(q)), |Groups(q)|)
          == Continued(Reversed(Groups(q / 128)), |Groups(q / 128)|) + [128 + q % 128];
    }
  }

  lemma ReversedGroupsSpell(n: u64)
    requires n > 0
    ensures Groups(n) != [] && forall i :: 0 <= i < |Groups(n)| ==> Reversed(Groups(n))[i] < 128
    ensures Continued(Reversed(Groups(n)), |Groups(n)| - 1) == VarInt(n)
  {
    var q, digits := n / 128, Reversed(Groups(n));
    GroupsSmall(n);
    GroupsSpellLeading(q);
    assert digits == Reversed(Groups(q)) + [n % 128];
    assert Continued(digits, |digits| - 1) == Continued(Reversed(Groups(q)), |Groups(q)|) + [n % 128];
  }

  method EncodeVarInt(value: u64) returns (o: seq<byte>)
    ensures o == VarInt(value)
  {
    if value == 0 { return [0]; }
    o := PushGroups(value);
    ReversedGroupsSpell(value);
    o := SetContinuation(Reversed(o));
  }

  method PushGroups(value: u64) returns (o: seq<byte>)
    ensures o == Groups(value)
  {
    var n: nat := value;
    o := [];
    while n > 0
      invariant Groups(value) == o + Groups(n)
    {
      ghost var before := o;
      o := o + [n % 128];
      assert before + ([n % 128] + Groups(n / 128)) == o + Groups(n / 128);
      n := n / 128;
    }
  }

  method SetContinuation(digits: seq<byte>) returns (o: seq<byte>)
    requires digits != [] && forall i :: 0 <= i < |digits| ==> digits[i] < 128
    ensures o == Continued(digits, |digits| - 1)
  {
    o := digits;
    for i := 0 to |digits| - 1
      invariant |o| == |digits|
      invariant forall k :: 0 <= k < i ==> o[k] == digits[k] + 128
      invariant forall k :: i <= k < |o| ==> o[k] == digits[k]
    {
      o := o[i := o[i] + 128];
    }
  }

  method DecodeVarInt(encoded: seq<byte>) returns (value: Parsed<u64>)
    ensures value == ReadVarInt(encoded)
  {
    var rest, acc := encoded, 0;
    for i := 0 to 10
      invariant 0 <= acc <= MAX_U64
      invariant ReadVarInt(encoded) == ReadGroups(rest, acc, 10 - i)
    {
      if |rest| < 1 { return Bad(ParseEndsPrematurely); }
      var b := rest[0];
      rest := rest[1..];
      if acc * 128 + b % 128 > MAX_U64 { return Bad(BadRange); }
      acc := acc * 128 + b % 128;
      if b < 128 { return Got(acc, rest); }
    }
    return Bad(BadRange);
  }
}
