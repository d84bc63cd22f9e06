/** Base64 (section 4 of RFC 4648) as shared/protocol/src/codec.cpp encodes and decodes it. */
module Codec {
  import opened Basics

  datatype CodecError = NoError | InvalidLength | InvalidCharacter | OutputTooSmall

  /** The alphabet A-Z, a-z, 0-9, '+', '/'. */
  function Base64Char(v: int): (c: char)
    requires 0 <= v < 64
  {
    if v < 26 then (v + 'A' as int) as char
    else if v < 52 then (v - 26 + 'a' as int) as char
    else if v < 62 then (v - 52 + '0' as int) as char
    else if v == 62 then '+'
    else '/'
  }

  /** b64_value: the index of a character in the alphabet, or -1. */
  function Base64Value(c: char): (v: int)
    ensures -1 <= v < 64
    ensures v >= 0 ==> Base64Char(v) == c
  {
    if 'A' <= c <= 'Z' then c as int - 'A' as int
    else if 'a' <= c <= 'z' then c as int - 'a' as int + 26
    else if '0' <= c <= '9' then c as int - '0' as int + 52
    else if c == '+' then 62
    else if c == '/' then 63
    else -1
  }

  // ---- Groups of three bytes and four characters ---------------------------
  // The 24-bit group value is a number, so shifts and masks are division and remainder.

  function Num(b: bv8): (n: int)
    ensures 0 <= n < 256
  {
    b as int
  }

  function FromNum(n: int): bv8
    requires 0 <= n < 256
  {
    n as bv8
  }

  function Low8(n: int): bv8
    requires 0 <= n
  {
    FromNum(n % 256)
  }

  lemma FromNumOfNum(b: bv8)
    ensures FromNum(Num(b)) == b
  {}

  /** Absent bytes count as zero. */
  function GroupValue(bytes: seq<bv8>): (v: int)
    requires 1 <= |bytes| <= 3
    ensures 0 <= v < 0x100_0000
  {
    Num(bytes[0]) * 0x1_0000
    + (if |bytes| > 1 then Num(bytes[1]) * 0x100 else 0)
    + (if |bytes| > 2 then Num(bytes[2]) else 0)
  }

  function EncodeGroup(bytes: seq<bv8>): (s: string)
    requires 1 <= |bytes| <= 3
    ensures |s| == 4
  {
    var v := GroupValue(bytes);
    [Base64Char(v / 0x4_0000 % 64), Base64Char(v / 0x1000 % 64),
     if |bytes| > 1 then Base64Char(v / 64 % 64) else '=',
     if |bytes| > 2 then Base64Char(v % 64) else '=']
  }

  function Encode(data: seq<bv8>): string {
    if data == [] then ""
    else if |data| <= 3 then EncodeGroup(data)
    else EncodeGroup(data[..3]) + Encode(data[3..])
  }

  /** The value of the third or fourth character: padding is -2. */
  function PaddedValue(c: char): (v: int)
    ensures -2 <= v < 64
  {
    if c == '=' then -2 else Base64Value(c)
  }

  predicate ValidGroup(g: string, last: bool)
    requires |g| == 4
  {
    var a, b, c, d := Base64Value(g[0]), Base64Value(g[1]), PaddedValue(g[2]), PaddedValue(g[3]);
    !(a < 0 || b < 0 || c == -1 || d == -1 || (c == -2 && d != -2) || ((c == -2 || d == -2) && !last))
  }

  function SextetValue(a: int, b: int, c: int, d: int): (v: int)
    requires 0 <= a < 64 && 0 <= b < 64 && c < 64 && d < 64
    ensures 0 <= v < 0x100_0000
  {
    a * 0x4_0000 + b * 0x1000 + (if c < 0 then 0 else c * 64) + (if d < 0 then 0 else d)
  }

  function DecodeGroup(g: string): (bytes: seq<bv8>)
    requires |g| == 4 && ValidGroup(g, true)
    ensures 1 <= |bytes| <= 3
  {
    var c, d := PaddedValue(g[2]), PaddedValue(g[3]);
    var v := SextetValue(Base64Value(g[0]), Base64Value(g[1]), c, d);
    if c == -2 then [Low8(v / 0x1_0000)]
    else if d == -2 then [Low8(v / 0x1_0000), Low8(v / 0x100)]
    else [Low8(v / 0x1_0000), Low8(v / 0x100), Low8(v)]
  }

  /** What the decoder has written when it stops, and why it stopped. */
  datatype Decoded = Decoded(error: CodecError, bytes: seq<bv8>)

  function DecodeGroups(s: string, capacity: nat): (r: Decoded)
    requires |s| % 4 == 0
    ensures |r.bytes| <= capacity
  {
    if s == [] then Decoded(NoError, [])
    else if !ValidGroup(s[..4], |s| == 4) then Decoded(InvalidCharacter, [])
    else
      var group := DecodeGroup(s[..4]);
      if |group| > capacity then Decoded(OutputTooSmall, [])
      else
        var rest := DecodeGroups(s[4..], capacity - |group|);
        Decoded(rest.error, group + rest.bytes)
  }

  function Decode(s: string, capacity: nat): (r: Decoded)
    ensures |r.bytes| <= capacity
  {
    if |s| % 4 != 0 then Decoded(InvalidLength, []) else DecodeGroups(s, capacity)
  }

  // ---- The loops of the source --------------------------------------------

  method EncodeBase64(data: seq<bv8>) returns (out: string)
    ensures out == Encode(data)
  {
    hide Encode, EncodeGroup;
    out := "";
    var i := 0;
    EncodeStart(data);
    while i < |data|
      invariant 0 <= i
      invariant out + Encode(data[Min(i, |data|)..]) == Encode(data)
    {
      var group := data[i..Min(i + 3, |data|)];
      EncodeStep(data, i);
      ghost var text, after := EncodeGroup(group), Encode(data[Min(i + 3, |data|)..]);
      assert out + (text + after) == out + text + after;
      out := out + EncodeGroup(group);
      i := i + 3;
    }
    assert data[Min(i, |data|)..] == [];
    assert out + Encode([]) == out;
  }

  lemma EncodeStart(data: seq<bv8>)
    ensures data[Min(0, |data|)..] == data && Encode([]) == ""
  {}

  /** One pass of the encoder's loop. */
  lemma EncodeStep(data: seq<bv8>, i: nat)
    requires i < |data|
    ensures Encode(data[i..]) == EncodeGroup(data[i..Min(i + 3, |data|)]) + Encode(data[Min(i + 3, |data|)..])
    ensures Encode([]) == ""
  {
    hide EncodeGroup;
    var rest, end := data[i..], Min(i + 3, |data|);
    if |rest| <= 3 {
      assert data[i..end] == rest && data[end..] == [];
      assert EncodeGroup(rest) + "" == EncodeGroup(rest);
    } else {
      assert data[i..end] == rest[..3] && data[end..] == rest[3..];
    }
  }

  /** The one to three writes at the end of the decoder's loop body. */
  method Store(out: array<bv8>, at: nat, bytes: seq<bv8>)
    requires 1 <= |bytes| <= 3 && at + |bytes| <= out.Length
    modifies out
    ensures out[..at + |bytes|] == old(out[..at]) + bytes
    ensures out[at + |bytes|..] == old(out[at + |bytes|..])
  {
    out[at] := bytes[0];
    if |bytes| > 1 {
      out[at + 1] := bytes[1];
    }
    if |bytes| > 2 {
      out[at + 2] := bytes[2];
    }
  }

  /** The decoder's loop body: one group is written at the given place, or nothing is. */
  method DecodeGroupInto(quad: string, last: bool, out: array<bv8>, at: nat) returns (error: CodecError, next: nat)
    requires |quad| == 4 && at <= out.Length
    modifies out
    ensures at <= next <= out.Length
    ensures DecodeOne(quad, last, "", out.Length - at).error == error
    ensures out[..next] == old(out[..at]) + DecodeOne(quad, last, "", out.Length - at).bytes
    ensures next == at + |DecodeOne(quad, last, "", out.Length - at).bytes|
    ensures out[next..] == old(out[at..])[next - at..]
  {
    hide *;
    ghost var original := out[..];
    next := at;
    OnlyOne(quad, last, out.Length - at);
    if !ValidGroup(quad, last) {
      return InvalidCharacter, next;
    }
    var bytes := DecodeGroup(quad);
    if at + |bytes| > out.Length {
      return OutputTooSmall, next;
    }
    Shift(original, at, at + |bytes|);
    Store(out, at, bytes);
    return NoError, at + |bytes|;
  }

  lemma OnlyOne(quad: string, last: bool, capacity: nat)
    requires |quad| == 4
    ensures !ValidGroup(quad, last) ==> DecodeOne(quad, last, "", capacity) == Decoded(InvalidCharacter, [])
    ensures ValidGroup(quad, last) ==> ValidGroup(quad, true) && |DecodeGroup(quad)| >= 1
    ensures ValidGroup(quad, last) ==>
              var group := DecodeGroup(quad);
              DecodeOne(quad, last, "", capacity)
              == if |group| > capacity then Decoded(OutputTooSmall, []) else Decoded(NoError, group)
  {
    hide ValidGroup, DecodeGroup;
    if ValidGroup(quad, last) {
      ValidGroupAnywhere(quad, last);
      assert DecodeGroup(quad) + [] == DecodeGroup(quad);
    }
  }

  /** Fills out[..written]; the array bounds are the capacity of the source. */
  method DecodeBase64(s: string, out: array<bv8>) returns (error: CodecError, written: nat)
    modifies out
    ensures written <= out.Length
    ensures Decoded(error, out[..written]) == Decode(s, out.Length)
    ensures out[written..] == old(out[written..])
  {
    hide *;
    ghost var original := out[..];
    ghost var done: seq<bv8> := [];
    error, written := NoError, 0;
    DecodeStart(s, out.Length);
    if |s| % 4 != 0 {
      return InvalidLength, 0;
    }
    var i := 0;
    while i < |s|
      invariant 0 <= i <= |s| && i % 4 == 0
      invariant written <= out.Length && out[..written] == done
      invariant out[written..] == original[written..]
      invariant Decode(s, out.Length) == After(done, DecodeGroups(s[i..], out.Length - written))
    {
      var quad, last := s[i..i + 4], i + 4 == |s|;
      DecodeStep(s, i, out.Length - written);
      OneThenRest(quad, last, s[i + 4..], out.Length - written, done);
      ghost var one := DecodeOne(quad, last, "", out.Length - written).bytes;
      Shift(original, written, written + |one|);
      error, written := DecodeGroupInto(quad, last, out, written);
      done := done + one;
      if error != NoError {
        DecodeEnd(error, done);
        return;
      }
      i := i + 4;
    }
    assert s[i..] == "";
    DecodeNothing(out.Length - written);
    DecodeEnd(NoError, done);
    error := NoError;
  }

  lemma Shift(bytes: seq<bv8>, from: nat, to: nat)
    requires from <= to <= |bytes|
    ensures bytes[from..][to - from..] == bytes[to..]
  {}

  lemma DecodeStart(s: string, capacity: nat)
    ensures |s| % 4 != 0 ==> Decode(s, capacity) == Decoded(InvalidLength, [])
    ensures |s| % 4 == 0 ==> Decode(s, capacity) == After([], DecodeGroups(s[0..], capacity))
  {
    hide DecodeGroups;
    assert s[0..] == s;
    assert forall b: seq<bv8> :: [] + b == b;
  }

  lemma DecodeEnd(error: CodecError, prefix: seq<bv8>)
    ensures After(prefix, Decoded(error, [])) == Decoded(error, prefix)
  {
    assert prefix + [] == prefix;
  }

  lemma DecodeNothing(capacity: nat)
    ensures DecodeGroups("", capacity) == Decoded(NoError, [])
  {}

  /** Bytes already written, and what decoding the rest adds. */
  function After(prefix: seq<bv8>, rest: Decoded): Decoded { Decoded(rest.error, prefix + rest.bytes) }

  lemma OneThenRest(quad: string, last: bool, tail: string, capacity: nat, prefix: seq<bv8>)
    requires |quad| == 4 && |tail| % 4 == 0
    ensures |DecodeOne(quad, last, "", capacity).bytes| <= capacity
    ensures var one := DecodeOne(quad, last, "", capacity);
            After(prefix, DecodeOne(quad, last, tail, capacity))
            == After(prefix + one.bytes,
                     if one.error != NoError then Decoded(one.error, []) else DecodeGroups(tail, capacity - |one.bytes|))
  {
    hide ValidGroup, DecodeGroup;
    assert prefix + [] == prefix && prefix + [] + [] == prefix;
    if ValidGroup(quad, last) {
      ValidGroupAnywhere(quad, last);
      var group := DecodeGroup(quad);
      assert group + [] == group;
      if |group| <= capacity {
        var rest := DecodeGroups(tail, capacity - |group|);
        assert prefix + (group + rest.bytes) == prefix + group + rest.bytes;
      }
    }
  }

  /** A group, and the groups after it. */
  function DecodeOne(quad: string, last: bool, tail: string, capacity: nat): Decoded
    requires |quad| == 4 && |tail| % 4 == 0
  {
    if !ValidGroup(quad, last) then Decoded(InvalidCharacter, [])
    else
      ValidGroupAnywhere(quad, last);
      var group := DecodeGroup(quad);
      if |group| > capacity then Decoded(OutputTooSmall, [])
      else
        var rest := DecodeGroups(tail, capacity - |group|);
        Decoded(rest.error, group + rest.bytes)
  }

  /** One pass of the decoder's loop. */
  lemma DecodeStep(s: string, i: nat, capacity: nat)
    requires i % 4 == 0 && |s| % 4 == 0 && i < |s|
    ensures DecodeGroups(s[i..], capacity) == DecodeOne(s[i..i + 4], i + 4 == |s|, s[i + 4..], capacity)
  {
    assert s[i..i + 4] == s[i..][..4] && s[i..][4..] == s[i + 4..];
    if ValidGroup(s[i..i + 4], i + 4 == |s|) {
      ValidGroupAnywhere(s[i..i + 4], i + 4 == |s|);
    }
  }

  lemma ValidGroupAnywhere(g: string, last: bool)
    requires |g| == 4 && ValidGroup(g, last)
    ensures ValidGroup(g, true)
  {}

  // ---- Round trip ----------------------------------------------------------

  lemma {:induction false} EncodedLength(data: seq<bv8>)
    ensures |Encode(data)| == 4 * ((|data| + 2) / 3)
  {
    hide EncodeGroup;
    if |data| > 3 {
      EncodedLength(data[3..]);
    }
  }

  lemma Split(x: int, y: int, z: int, v: int)
    requires 0 <= x < 256 && 0 <= y < 256 && 0 <= z < 256 && v == x * 0x1_0000 + y * 0x100 + z
    ensures v / 0x4_0000 % 64 == x / 4
    ensures v / 0x1000 % 64 == x % 4 * 16 + y / 16
    ensures v / 64 % 64 == y % 16 * 4 + z / 64
    ensures v % 64 == z % 64
  {
    var s0, s1, s2, s3 := x / 4, x % 4 * 16 + y / 16, y % 16 * 4 + z / 64, z % 64;
    DivRem(v, 0x4_0000, s0, s1 * 0x1000 + s2 * 64 + s3);
    DivRem(s0, 64, 0, s0);
    DivRem(v, 0x1000, s0 * 64 + s1, s2 * 64 + s3);
    DivRem(s0 * 64 + s1, 64, s0, s1);
    DivRem(v, 64, s0 * 0x1000 + s1 * 64 + s2, s3);
    DivRem(s0 * 0x1000 + s1 * 64 + s2, 64, s0 * 64 + s1, s2);
  }

  lemma SplitBytes(x: int, y: int, z: int, v: int)
    requires 0 <= x < 256 && 0 <= y < 256 && 0 <= z < 256 && v == x * 0x1_0000 + y * 0x100 + z
    ensures v / 0x1_0000 % 256 == x && v / 0x100 % 256 == y && v % 256 == z
  {
    DivRem(v, 0x1_0000, x, y * 0x100 + z);
    DivRem(v, 0x100, x * 0x100 + y, z);
    DivRem(x * 0x100 + y, 0x100, x, y);
    DivRem(x, 256, 0, x);
  }

  /** Padding bits are zero. */
  lemma SplitZeros(x: int, y: int, z: int, v: int)
    requires 0 <= x < 256 && 0 <= y < 256 && 0 <= z < 256 && v == x * 0x1_0000 + y * 0x100 + z
    ensures z == 0 ==> v % 64 == 0
    ensures y == 0 && z == 0 ==> v / 64 % 64 == 0
  {
    if z == 0 {
      DivRem(v, 64, x * 0x400 + y * 4, 0);
      if y == 0 {
        DivRem(x * 0x400, 64, x * 16, 0);
      }
    }
  }

  lemma SplitJoin(x: int, y: int, z: int, v: int)
    requires 0 <= x < 256 && 0 <= y < 256 && 0 <= z < 256 && v == x * 0x1_0000 + y * 0x100 + z
    ensures SextetValue(v / 0x4_0000 % 64, v / 0x1000 % 64, v / 64 % 64, v % 64) == v
    ensures v / 0x1_0000 % 256 == x && v / 0x100 % 256 == y && v % 256 == z
    ensures z == 0 ==> v % 64 == 0
    ensures y == 0 && z == 0 ==> v / 64 % 64 == 0
  {
    Split(x, y, z, v);
    SplitBytes(x, y, z, v);
    SplitZeros(x, y, z, v);
  }

  lemma Base64CharFacts(v: int)
    requires 0 <= v < 64
    ensures Base64Value(Base64Char(v)) == PaddedValue(Base64Char(v)) == v
  {}

  lemma Low8OfRemainder(n: int, b: bv8)
    requires 0 <= n && n % 256 == Num(b)
    ensures Low8(n) == b
  {
    FromNumOfNum(b);
  }

  lemma GroupRoundTrip(bytes: seq<bv8>)
    requires 1 <= |bytes| <= 3
    ensures ValidGroup(EncodeGroup(bytes), true)
    ensures |bytes| == 3 ==> ValidGroup(EncodeGroup(bytes), false)
    ensures DecodeGroup(EncodeGroup(bytes)) == bytes
  {
    hide Base64Char, Base64Value, Low8, Num, SextetValue;
    var v := GroupValue(bytes);
    var x := Num(bytes[0]);
    var y := if |bytes| > 1 then Num(bytes[1]) else 0;
    var z := if |bytes| > 2 then Num(bytes[2]) else 0;
    SplitJoin(x, y, z, v);
    Base64CharFacts(v / 0x4_0000 % 64);
    Base64CharFacts(v / 0x1000 % 64);
    Base64CharFacts(v / 64 % 64);
    Base64CharFacts(v % 64);
    PaddingIsZero(v / 0x4_0000 % 64, v / 0x1000 % 64, v / 64 % 64);
    Low8OfRemainder(v / 0x1_0000, bytes[0]);
    if |bytes| > 1 { Low8OfRemainder(v / 0x100, bytes[1]); }
    if |bytes| > 2 { Low8OfRemainder(v, bytes[2]); }
  }

  lemma PaddingIsZero(a: int, b: int, c: int)
    requires 0 <= a < 64 && 0 <= b < 64 && 0 <= c < 64
    ensures SextetValue(a, b, c, -2) == SextetValue(a, b, c, 0)
    ensures SextetValue(a, b, -2, -2) == SextetValue(a, b, 0, 0)
  {}

  /** Decoding what was encoded gives the bytes back whenever they fit, and says so when not. */
  lemma {:induction false} RoundTrip(data: seq<bv8>, capacity: nat)
    ensures |data| <= capacity ==> Decode(Encode(data), capacity) == Decoded(NoError, data)
    ensures |data| > capacity ==> Decode(Encode(data), capacity).error == OutputTooSmall
  {
    EncodedLength(data);
    hide EncodeGroup, DecodeGroup, ValidGroup;
    if data == [] {
    } else if |data| <= 3 {
      GroupRoundTrip(data);
      assert Encode(data)[..4] == EncodeGroup(data) && Encode(data)[4..] == [];
      assert DecodeGroup(EncodeGroup(data)) == data;
      if |data| <= capacity {
        assert DecodeGroups([], capacity - |data|) == Decoded(NoError, []);
        assert data + [] == data;
      }
    } else {
      var head, tail := data[..3], data[3..];
      GroupRoundTrip(head);
      EncodedLength(tail);
      assert Encode(data)[..4] == EncodeGroup(head);
      assert Encode(data)[4..] == Encode(tail);
      if capacity >= 3 {
        RoundTrip(tail, capacity - 3);
      }
      assert data == head + tail;
    }
  }

  /** Encoded text is printable and free of spaces. */
  lemma {:induction false} EncodedCharacters(data: seq<bv8>)
    ensures forall c <- Encode(data) :: '!' <= c <= '~'
  {
    if |data| > 3 {
      EncodedCharacters(data[3..]);
      GroupCharacters(data[..3]);
    } else if |data| > 0 {
      GroupCharacters(data);
    }
    hide EncodeGroup;
  }

  lemma GroupCharacters(bytes: seq<bv8>)
    requires 1 <= |bytes| <= 3
    ensures forall c <- EncodeGroup(bytes) :: '!' <= c <= '~'
  {
    hide Num;
  }
}
