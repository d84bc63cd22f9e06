/** Which texts the base64 decoder accepts, and what it takes them for: section 4 of RFC 4648. */
module CodecLaws {
  import opened Codec
  import opened ByteNumbers

  predicate InAlphabet(c: char) { 'A' <= c <= 'Z' || 'a' <= c <= 'z' || '0' <= c <= '9' || c == '+' || c == '/' }

  /** Padding stands at the very end: one '=', or two. */
  predicate IsPadding(s: string, k: nat)
    requires k < |s|
  {
    s[k] == '=' && (k == |s| - 1 || (k == |s| - 2 && s[k + 1] == '='))
  }

  predicate MayStand(s: string, k: nat)
    requires k < |s|
  {
    InAlphabet(s[k]) || IsPadding(s, k)
  }

  /** Groups of four alphabet characters, the last one with up to two of them replaced by padding. */
  predicate WellFormed(s: string) {
    |s| % 4 == 0 && forall k :: 0 <= k < |s| ==> MayStand(s, k)
  }

  /** How many characters of padding a text ends in. */
  function Padding(s: string): (n: nat)
    ensures n <= 2
  {
    if |s| < 4 || s[|s| - 1] != '=' then 0 else if s[|s| - 2] != '=' then 1 else 2
  }

  function BytesIn(s: string): int { |s| / 4 * 3 - Padding(s) }

  lemma ValuesOfAlphabet(c: char)
    ensures Base64Value(c) >= 0 <==> InAlphabet(c)
    ensures PaddedValue(c) == -2 <==> c == '='
    ensures PaddedValue(c) != -2 ==> PaddedValue(c) == Base64Value(c)
    ensures c == '=' ==> !InAlphabet(c)
  {}

  lemma GroupIsWellFormed(g: string)
    requires |g| == 4
    ensures ValidGroup(g, true) <==> WellFormed(g)
    ensures ValidGroup(g, false) <==> WellFormed(g) && g[3] != '='
    ensures ValidGroup(g, true) ==> |DecodeGroup(g)| == BytesIn(g)
  {
    hide Base64Value, PaddedValue, InAlphabet;
    ValuesOfAlphabet(g[0]);
    ValuesOfAlphabet(g[1]);
    ValuesOfAlphabet(g[2]);
    ValuesOfAlphabet(g[3]);
    assert WellFormed(g) <==>
             MayStand(g, 0) && MayStand(g, 1) && MayStand(g, 2) && MayStand(g, 3);
  }

  lemma RestIsWellFormed(s: string)
    requires |s| > 4 && |s| % 4 == 0
    ensures WellFormed(s) <==> WellFormed(s[..4]) && s[3] != '=' && WellFormed(s[4..])
    ensures BytesIn(s) == 3 + BytesIn(s[4..])
  {
    hide InAlphabet;
    ValuesOfAlphabet(s[3]);
    var g, rest := s[..4], s[4..];
    if WellFormed(g) && s[3] != '=' && WellFormed(rest) {
      forall k | 0 <= k < |s| ensures MayStand(s, k) {
        if k < 4 {
          assert MayStand(g, k);
        } else {
          assert MayStand(rest, k - 4);
        }
      }
    }
    if WellFormed(s) {
      forall k | 0 <= k < 4 ensures InAlphabet(g[k]) && g[k] != '=' {
        assert MayStand(s, k);
        ValuesOfAlphabet(s[k]);
      }
      forall k | 0 <= k < |rest| ensures MayStand(rest, k) {
        assert MayStand(s, k + 4);
      }
    }
  }

  lemma {:induction false} GroupsAccept(s: string, capacity: nat)
    requires |s| % 4 == 0
    ensures DecodeGroups(s, capacity).error == NoError <==> WellFormed(s) && BytesIn(s) <= capacity
    ensures DecodeGroups(s, capacity).error == NoError ==> |DecodeGroups(s, capacity).bytes| == BytesIn(s)
    ensures WellFormed(s) ==> DecodeGroups(s, capacity).error != InvalidCharacter && BytesIn(s) >= 0
  {
    hide WellFormed, ValidGroup, DecodeGroup, Padding;
    if s == "" {
      NothingIsWellFormed();
    } else {
      GroupIsWellFormed(s[..4]);
      if |s| == 4 {
        assert s[..4] == s && s[4..] == "";
        assert 1 <= BytesIn(s) <= 3 by { assert BytesIn(s) == 3 - Padding(s); }
      } else {
        RestIsWellFormed(s);
        if ValidGroup(s[..4], false) {
          GroupIsWhole(s[..4]);
          assert ValidGroup(s[..4], true);
          if 3 <= capacity {
            GroupsAccept(s[4..], capacity - 3);
          } else {
            GroupsAccept(s[4..], 0);
          }
        }
      }
    }
  }

  lemma NothingIsWellFormed()
    ensures WellFormed("") && BytesIn("") == 0
  {}

  lemma GroupIsWhole(g: string)
    requires |g| == 4 && g[3] != '='
    ensures BytesIn(g) == 3
  {}

  /**
   * The decoder accepts exactly the well-formed texts whose bytes fit, and returns exactly as many
   * bytes as their length and padding say.
   */
  lemma DecodeAccepts(s: string, capacity: nat)
    ensures var decoded := Decode(s, capacity);
            && (decoded.error == InvalidLength <==> |s| % 4 != 0)
            && (decoded.error == NoError <==> WellFormed(s) && BytesIn(s) <= capacity)
            && (decoded.error == NoError ==> |decoded.bytes| == BytesIn(s))
            && (WellFormed(s) && BytesIn(s) > capacity ==> decoded.error == OutputTooSmall)
  {
    hide DecodeGroups, BytesIn;
    if |s| % 4 == 0 {
      GroupsAccept(s, capacity);
      NoLengthError(s, capacity);
    }
  }

  lemma {:induction false} NoLengthError(s: string, capacity: nat)
    requires |s| % 4 == 0
    ensures DecodeGroups(s, capacity).error != InvalidLength
  {
    hide ValidGroup, DecodeGroup;
    if s != "" && ValidGroup(s[..4], |s| == 4) {
      ValidGroupAnywhere(s[..4], |s| == 4);
      if |DecodeGroup(s[..4])| <= capacity {
        NoLengthError(s[4..], capacity - |DecodeGroup(s[..4])|);
      }
    }
  }

  // ---- What the decoder ignores ----------------------------------------------------

  /** The text with the unused bits of its last character before the padding cleared. */
  function Canonical(s: string): string
    requires WellFormed(s)
  {
    var last := |s| - 1 - Padding(s);
    if Padding(s) == 0 then s
    else s[last := ClearLow(s[last], if Padding(s) == 1 then 4 else 16)]
  }

  function ClearLow(c: char, unit: nat): char
    requires unit > 0
  {
    var v := Base64Value(c);
    if v < 0 then c else ClearedChar(v, unit)
  }

  function ClearedChar(v: int, unit: nat): char
    requires 0 <= v < 64 && unit > 0
  {
    ClearedIsSextet(v, unit);
    Base64Char(v / unit * unit)
  }

  lemma ClearedIsSextet(v: int, unit: nat)
    requires 0 <= v < 64 && unit > 0
    ensures 0 <= v / unit * unit < 64
  {
    assert v / unit * unit <= v;
  }

  /** The three bytes of four sextets. */
  lemma Join(a: int, b: int, c: int, d: int, v: int)
    requires 0 <= a < 64 && 0 <= b < 64 && 0 <= c < 64 && 0 <= d < 64
    requires v == a * 0x4_0000 + b * 0x1000 + c * 64 + d
    ensures v / 0x1_0000 % 256 == a * 4 + b / 16
    ensures v / 0x100 % 256 == b % 16 * 16 + c / 4
    ensures v % 256 == c % 4 * 64 + d
  {
    var x, y, z := a * 4 + b / 16, b % 16 * 16 + c / 4, c % 4 * 64 + d;
    assert b == 16 * (b / 16) + b % 16 && c == 4 * (c / 4) + c % 4;
    SplitBytes(x, y, z, v);
  }

  /** Four sextets are their three bytes, and the bytes' sextets are these again. */
  lemma JoinSplit(a: int, b: int, c: int, d: int, v: int)
    requires 0 <= a < 64 && 0 <= b < 64 && 0 <= c < 64 && 0 <= d < 64
    requires v == a * 0x4_0000 + b * 0x1000 + c * 64 + d
    ensures v / 0x1_0000 % 256 * 0x1_0000 + v / 0x100 % 256 * 0x100 + v % 256 == v
    ensures v / 0x4_0000 % 64 == a && v / 0x1000 % 64 == b && v / 64 % 64 == c && v % 64 == d
  {
    var x, y, z := a * 4 + b / 16, b % 16 * 16 + c / 4, c % 4 * 64 + d;
    Join(a, b, c, d, v);
    Remainders(b, c);
    Split(x, y, z, v);
  }

  lemma Remainders(b: int, c: int)
    ensures b == 16 * (b / 16) + b % 16 && c == 4 * (c / 4) + c % 4
  {}

  lemma WholeGroup(g: string)
    requires |g| == 4 && WellFormed(g) && ValidGroup(g, true) && Padding(g) == 0
    ensures EncodeGroup(DecodeGroup(g)) == g
  {
    hide Base64Value, PaddedValue, WellFormed, ValidGroup, Base64Char, Low8, Num, Padding;
    GroupValues(g);
    var a, b, c, d := Base64Value(g[0]), Base64Value(g[1]), Base64Value(g[2]), Base64Value(g[3]);
    var v := SextetValue(a, b, c, d);
    JoinSplit(a, b, c, d, v);
    ThreeBytes(v);
    var bytes := DecodeGroup(g);
    assert bytes == [Low8(v / 0x1_0000), Low8(v / 0x100), Low8(v)];
    assert GroupValue(bytes) == v;
  }

  lemma NumOfFromNum(n: int)
    requires 0 <= n < 256
    ensures Num(FromNum(n)) == n
  {
    ByteOfNumber(n);
  }

  lemma ThreeBytes(v: int)
    requires 0 <= v
    ensures Num(Low8(v / 0x1_0000)) == v / 0x1_0000 % 256
    ensures Num(Low8(v / 0x100)) == v / 0x100 % 256
    ensures Num(Low8(v)) == v % 256
  {
    hide FromNum, Num;
    NumOfFromNum(v / 0x1_0000 % 256);
    NumOfFromNum(v / 0x100 % 256);
    NumOfFromNum(v % 256);
  }

  lemma GroupValues(g: string)
    requires |g| == 4 && WellFormed(g)
    ensures ValidGroup(g, true)
    ensures Base64Value(g[0]) >= 0 && Base64Value(g[1]) >= 0
    ensures Base64Char(Base64Value(g[0])) == g[0] && Base64Char(Base64Value(g[1])) == g[1]
    ensures Padding(g) <= 1 ==>
              PaddedValue(g[2]) == Base64Value(g[2]) >= 0 && Base64Char(Base64Value(g[2])) == g[2]
    ensures Padding(g) == 0 ==>
              PaddedValue(g[3]) == Base64Value(g[3]) >= 0 && Base64Char(Base64Value(g[3])) == g[3]
    ensures Padding(g) >= 1 ==> g[3] == '=' && PaddedValue(g[3]) == -2
    ensures Padding(g) == 2 ==> g[2] == '=' && PaddedValue(g[2]) == -2
  {
    hide Base64Value, PaddedValue, InAlphabet;
    GroupIsWellFormed(g);
    ValuesOfAlphabet(g[0]);
    ValuesOfAlphabet(g[1]);
    ValuesOfAlphabet(g[2]);
    ValuesOfAlphabet(g[3]);
    assert MayStand(g, 0);
    assert MayStand(g, 1);
    assert MayStand(g, 2);
    assert MayStand(g, 3);
  }

  lemma TwoByteGroup(g: string)
    requires |g| == 4 && WellFormed(g) && ValidGroup(g, true) && Padding(g) == 1
    ensures EncodeGroup(DecodeGroup(g)) == [g[0], g[1], ClearLow(g[2], 4), '=']
  {
    hide Base64Value, PaddedValue, WellFormed, ValidGroup, Base64Char, Low8, Num, Padding;
    GroupValues(g);
    var a, b, c := Base64Value(g[0]), Base64Value(g[1]), Base64Value(g[2]);
    var v := SextetValue(a, b, c, -2);
    JoinTwo(a, b, c, v);
    ThreeBytes(v);
    var bytes := DecodeGroup(g);
    assert bytes == [Low8(v / 0x1_0000), Low8(v / 0x100)];
    assert GroupValue(bytes) == v / 0x1_0000 % 256 * 0x1_0000 + v / 0x100 % 256 * 0x100;
  }

  /** Three sextets without their last two bits are their two bytes. */
  lemma JoinTwo(a: int, b: int, c: int, v: int)
    requires 0 <= a < 64 && 0 <= b < 64 && 0 <= c < 64 && v == a * 0x4_0000 + b * 0x1000 + c * 64
    ensures var w := v / 0x1_0000 % 256 * 0x1_0000 + v / 0x100 % 256 * 0x100;
            w / 0x4_0000 % 64 == a && w / 0x1000 % 64 == b && w / 64 % 64 == c / 4 * 4
  {
    var x, y := a * 4 + b / 16, b % 16 * 16 + c / 4;
    Join(a, b, c, 0, v);
    Remainders(b, c);
    Split(x, y, 0, x * 0x1_0000 + y * 0x100);
  }

  lemma OneByteGroup(g: string)
    requires |g| == 4 && WellFormed(g) && ValidGroup(g, true) && Padding(g) == 2
    ensures EncodeGroup(DecodeGroup(g)) == [g[0], ClearLow(g[1], 16), '=', '=']
  {
    hide Base64Value, PaddedValue, WellFormed, ValidGroup, Base64Char, Low8, Num, Padding;
    GroupValues(g);
    var a, b := Base64Value(g[0]), Base64Value(g[1]);
    var v := SextetValue(a, b, -2, -2);
    ThreeBytes(v);
    Join(a, b, 0, 0, v);
    var x := a * 4 + b / 16;
    var w := x * 0x1_0000;
    assert GroupValue(DecodeGroup(g)) == w;
    Split(x, 0, 0, w);
    assert w / 0x4_0000 % 64 == a && w / 0x1000 % 64 == b / 16 * 16;
  }

  lemma GroupReencodes(g: string)
    requires |g| == 4 && WellFormed(g)
    ensures ValidGroup(g, true) && EncodeGroup(DecodeGroup(g)) == Canonical(g)
  {
    hide WellFormed, ValidGroup, DecodeGroup, EncodeGroup, ClearLow;
    GroupValues(g);
    if Padding(g) == 0 {
      WholeGroup(g);
    } else if Padding(g) == 1 {
      TwoByteGroup(g);
    } else {
      OneByteGroup(g);
    }
  }

  lemma WholeGroups(s: string)
    requires WellFormed(s)
    ensures |s| % 4 == 0
  {}

  lemma CanonicalRest(s: string)
    requires |s| > 4 && WellFormed(s)
    ensures WellFormed(s[..4]) && WellFormed(s[4..])
    ensures Canonical(s) == Canonical(s[..4]) + Canonical(s[4..])
  {
    hide WellFormed, ClearLow;
    WholeGroups(s);
    RestIsWellFormed(s);
    assert s == s[..4] + s[4..];
  }

  lemma {:induction false} GroupsReencode(s: string, capacity: nat)
    requires WellFormed(s) && DecodeGroups(s, capacity).error == NoError
    ensures Encode(DecodeGroups(s, capacity).bytes) == Canonical(s)
  {
    hide WellFormed, ValidGroup, DecodeGroup, EncodeGroup, Canonical, BytesIn;
    WholeGroups(s);
    if s == "" {
      CanonicalOfNothing();
    } else if |s| == 4 {
      assert s[..4] == s && s[4..] == "";
      GroupReencodes(s);
      var group := DecodeGroup(s);
      assert group + [] == group;
    } else {
      CanonicalRest(s);
      RestIsWellFormed(s);
      GroupIsWellFormed(s[..4]);
      GroupReencodes(s[..4]);
      GroupIsWhole(s[..4]);
      var group := DecodeGroup(s[..4]);
      var rest := DecodeGroups(s[4..], capacity - 3);
      GroupsReencode(s[4..], capacity - 3);
      GroupsAccept(s[4..], capacity - 3);
      SomethingIsEncoded(s[4..], rest.bytes);
      assert (group + rest.bytes)[..3] == group && (group + rest.bytes)[3..] == rest.bytes;
    }
  }

  lemma CanonicalOfNothing()
    ensures WellFormed("") && Canonical("") == ""
  {}

  lemma SomethingIsEncoded(s: string, bytes: seq<bv8>)
    requires |s| >= 4 && |bytes| == BytesIn(s)
    ensures bytes != []
  {}

  /**
   * What is decoded encodes to the text with its unused bits cleared; so exactly the texts whose
   * unused bits are zero are encodings of what they decode to.
   */
  lemma DecodeReencodes(s: string, capacity: nat)
    requires Decode(s, capacity).error == NoError
    ensures WellFormed(s) && Encode(Decode(s, capacity).bytes) == Canonical(s)
  {
    hide WellFormed, DecodeGroups, Encode, BytesIn, Canonical;
    DecodeAccepts(s, capacity);
    GroupsReencode(s, capacity);
  }
}
