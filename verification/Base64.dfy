/** Base64 as RFC 4648 defines it (sections 3.2, 4 and 5), read the way the Go library reads it. */
module Base64 {
  import opened Errors

  type Byte = n: int | 0 <= n < 256

  type Sextet = n: int | 0 <= n < 64

  datatype Alphabet = Standard | UrlSafe

  function CharOf(a: Alphabet, v: Sextet): char {
    if v < 26 then 'A' + v as char
    else if v < 52 then 'a' + (v - 26) as char
    else if v < 62 then '0' + (v - 52) as char
    else if v == 62 then (if a.UrlSafe? then '-' else '+')
    else (if a.UrlSafe? then '_' else '/')
  }

  function ValueOf(a: Alphabet, c: char): Option<Sextet> {
    if 'A' <= c <= 'Z' then Some(c as int - 'A' as int)
    else if 'a' <= c <= 'z' then Some(c as int - 'a' as int + 26)
    else if '0' <= c <= '9' then Some(c as int - '0' as int + 52)
    else if c == CharOf(a, 62) then Some(62)
    else if c == CharOf(a, 63) then Some(63)
    else None
  }

  // ---------------------------------------------------------------- encoding

  function EncodeRaw(a: Alphabet, data: seq<Byte>): string {
    if |data| == 0 then ""
    else if |data| == 1 then [CharOf(a, data[0] / 4), CharOf(a, data[0] % 4 * 16)]
    else if |data| == 2 then
      [CharOf(a, data[0] / 4), CharOf(a, data[0] % 4 * 16 + data[1] / 16), CharOf(a, data[1] % 16 * 4)]
    else
      [CharOf(a, data[0] / 4), CharOf(a, data[0] % 4 * 16 + data[1] / 16),
       CharOf(a, data[1] % 16 * 4 + data[2] / 64), CharOf(a, data[2] % 64)]
      + EncodeRaw(a, data[3..])
  }

  function EncodePadded(a: Alphabet, data: seq<Byte>): string {
    EncodeRaw(a, data) + if |data| % 3 == 0 then "" else if |data| % 3 == 1 then "==" else "="
  }

  // ---------------------------------------------------------------- decoding

  /** Line breaks are skipped wherever they stand. */
  function WithoutBreaks(s: string): string {
    if s == "" then ""
    else (if s[0] == '\n' || s[0] == '\r' then "" else [s[0]]) + WithoutBreaks(s[1..])
  }

  /** Two, three or four characters of one group; bits left over are dropped. */
  function DecodeGroup(a: Alphabet, s: string): Option<seq<Byte>>
    requires 2 <= |s| <= 4
  {
    if exists i | 0 <= i < |s| :: ValueOf(a, s[i]).None? then None
    else
      var c0, c1 := ValueOf(a, s[0]).value, ValueOf(a, s[1]).value;
      var b0 := c0 * 4 + c1 / 16;
      if |s| == 2 then Some([b0])
      else
        var c2 := ValueOf(a, s[2]).value;
        var b1 := c1 % 16 * 16 + c2 / 4;
        if |s| == 3 then Some([b0, b1]) else Some([b0, b1, c2 % 4 * 64 + ValueOf(a, s[3]).value])
  }

  function Prepend(group: Option<seq<Byte>>, rest: Option<seq<Byte>>): Option<seq<Byte>> {
    if group.Some? && rest.Some? then Some(group.value + rest.value) else None
  }

  function DecodeRaw(a: Alphabet, s: string): Option<seq<Byte>> {
    if s == "" then Some([])
    else if |s| == 1 then None
    else if |s| <= 4 then DecodeGroup(a, s)
    else Prepend(DecodeGroup(a, s[..4]), DecodeRaw(a, s[4..]))
  }

  function DecodePadded(a: Alphabet, s: string): Option<seq<Byte>> {
    if s == "" then Some([])
    else if |s| < 4 then None
    else if |s| == 4 && s[2..] == "==" then DecodeGroup(a, s[..2])
    else if |s| == 4 && s[3] == '=' then DecodeGroup(a, s[..3])
    else if |s| == 4 then DecodeGroup(a, s)
    else Prepend(DecodeGroup(a, s[..4]), DecodePadded(a, s[4..]))
  }

  /** decodeBase64URLString: three decoders in turn. */
  function DecodeBody(s: string): Option<seq<Byte>> {
    var clean := WithoutBreaks(s);
    if DecodeRaw(UrlSafe, clean).Some? then DecodeRaw(UrlSafe, clean)
    else if DecodePadded(UrlSafe, clean).Some? then DecodePadded(UrlSafe, clean)
    else DecodeRaw(Standard, clean)
  }

  // ---------------------------------------------------------------- characters

  predicate InAlphabet(a: Alphabet, s: string) {
    forall i | 0 <= i < |s| :: ValueOf(a, s[i]).Some?
  }

  lemma CharRoundTrip(a: Alphabet, v: Sextet)
    ensures ValueOf(a, CharOf(a, v)) == Some(v)
    ensures CharOf(a, v) != '=' && CharOf(a, v) != '.' && CharOf(a, v) != '\n' && CharOf(a, v) != '\r'
  {
  }

  lemma {:induction false} EncodedInAlphabet(a: Alphabet, data: seq<Byte>)
    ensures InAlphabet(a, EncodeRaw(a, data))
  {
    if |data| > 3 {
      EncodedInAlphabet(a, data[3..]);
    }
  }

  lemma {:induction false} NoBreaksToSkip(s: string)
    requires forall i | 0 <= i < |s| :: s[i] != '\n' && s[i] != '\r'
    ensures WithoutBreaks(s) == s
  {
    if s != "" {
      NoBreaksToSkip(s[1..]);
    }
  }

  /** What decodes without padding consists of characters of the alphabet. */
  lemma {:induction false} DecodableInAlphabet(a: Alphabet, s: string)
    requires DecodeRaw(a, s).Some?
    ensures InAlphabet(a, s)
  {
    if |s| > 4 {
      DecodableInAlphabet(a, s[4..]);
      forall i | 0 <= i < |s|
        ensures ValueOf(a, s[i]).Some?
      {
        assert s[i] == if i < 4 then s[..4][i] else s[4..][i - 4];
      }
    }
  }

  /** What decodes with padding consists of characters of the alphabet and padding. */
  lemma {:induction false} PaddedInAlphabet(a: Alphabet, s: string)
    requires DecodePadded(a, s).Some?
    ensures forall i | 0 <= i < |s| :: ValueOf(a, s[i]).Some? || s[i] == '='
  {
    if |s| > 4 {
      PaddedInAlphabet(a, s[4..]);
      forall i | 0 <= i < |s|
        ensures ValueOf(a, s[i]).Some? || s[i] == '='
      {
        assert s[i] == if i < 4 then s[..4][i] else s[4..][i - 4];
      }
    } else if |s| == 4 {
      forall i | 0 <= i < 4
        ensures ValueOf(a, s[i]).Some? || s[i] == '='
      {
        if s[2..] == "==" {
          assert i < 2 ==> s[i] == s[..2][i];
          assert i >= 2 ==> s[i] == s[2..][i - 2];
        } else if s[3] == '=' {
          assert i < 3 ==> s[i] == s[..3][i];
        }
      }
    }
  }

  // ---------------------------------------------------------------- round trips

  lemma GroupArithmetic(b0: Byte, b1: Byte, b2: Byte)
    ensures b0 / 4 * 4 + (b0 % 4 * 16 + b1 / 16) / 16 == b0
    ensures (b0 % 4 * 16 + b1 / 16) % 16 * 16 + (b1 % 16 * 4 + b2 / 64) / 4 == b1
    ensures (b1 % 16 * 4 + b2 / 64) % 4 * 64 + b2 % 64 == b2
  {
    assert (b0 % 4 * 16 + b1 / 16) / 16 == b0 % 4;
    assert (b0 % 4 * 16 + b1 / 16) % 16 == b1 / 16;
    assert (b1 % 16 * 4 + b2 / 64) / 4 == b1 % 16;
    assert (b1 % 16 * 4 + b2 / 64) % 4 == b2 / 64;
  }

  lemma GroupOfChars(a: Alphabet, c0: Sextet, c1: Sextet, c2: Sextet, c3: Sextet)
    ensures DecodeGroup(a, [CharOf(a, c0), CharOf(a, c1)]) == Some([c0 * 4 + c1 / 16])
    ensures DecodeGroup(a, [CharOf(a, c0), CharOf(a, c1), CharOf(a, c2)])
         == Some([c0 * 4 + c1 / 16, c1 % 16 * 16 + c2 / 4])
    ensures DecodeGroup(a, [CharOf(a, c0), CharOf(a, c1), CharOf(a, c2), CharOf(a, c3)])
         == Some([c0 * 4 + c1 / 16, c1 % 16 * 16 + c2 / 4, c2 % 4 * 64 + c3])
  {
    CharRoundTrip(a, c0);
    CharRoundTrip(a, c1);
    CharRoundTrip(a, c2);
    CharRoundTrip(a, c3);
    hide CharOf, ValueOf;
  }

  /** Three bytes become four characters. */
  lemma ThreeBytes(a: Alphabet, b0: Byte, b1: Byte, b2: Byte)
    ensures EncodeRaw(a, [b0, b1, b2])
         == [CharOf(a, b0 / 4), CharOf(a, b0 % 4 * 16 + b1 / 16),
             CharOf(a, b1 % 16 * 4 + b2 / 64), CharOf(a, b2 % 64)]
  {
    hide CharOf;
    assert [b0, b1, b2][3..] == [];
    assert EncodeRaw(a, []) == "";
  }

  lemma FullGroup(a: Alphabet, b0: Byte, b1: Byte, b2: Byte)
    ensures |EncodeRaw(a, [b0, b1, b2])| == 4
    ensures DecodeGroup(a, EncodeRaw(a, [b0, b1, b2])) == Some([b0, b1, b2])
  {
    hide CharOf, DecodeGroup;
    ThreeBytes(a, b0, b1, b2);
    GroupArithmetic(b0, b1, b2);
    GroupOfChars(a, b0 / 4, b0 % 4 * 16 + b1 / 16, b1 % 16 * 4 + b2 / 64, b2 % 64);
  }

  lemma ShortGroups(a: Alphabet, b0: Byte, b1: Byte)
    ensures DecodeGroup(a, EncodeRaw(a, [b0])) == Some([b0])
    ensures DecodeGroup(a, EncodeRaw(a, [b0, b1])) == Some([b0, b1])
  {
    hide CharOf, DecodeGroup;
    GroupArithmetic(b0, 0, 0);
    GroupArithmetic(b0, b1, 0);
    GroupOfChars(a, b0 / 4, b0 % 4 * 16, 0, 0);
    GroupOfChars(a, b0 / 4, b0 % 4 * 16 + b1 / 16, b1 % 16 * 4, 0);
  }

  /** The first group of an encoding, and the rest. */
  lemma EncodeSplits(a: Alphabet, data: seq<Byte>)
    requires |data| > 3
    ensures EncodeRaw(a, data)[..4] == EncodeRaw(a, data[..3]) && EncodeRaw(a, data)[4..] == EncodeRaw(a, data[3..])
    ensures |EncodeRaw(a, data)| > 5
  {
  }

  lemma {:induction false} RawRoundTrip(a: Alphabet, data: seq<Byte>)
    ensures DecodeRaw(a, EncodeRaw(a, data)) == Some(data)
  {
    hide DecodeGroup;
    if |data| > 3 {
      hide EncodeRaw;
      RawRoundTrip(a, data[3..]);
      EncodeSplits(a, data);
      FullGroup(a, data[0], data[1], data[2]);
      assert data[..3] == [data[0], data[1], data[2]];
      assert data[..3] + data[3..] == data;
    } else if |data| == 3 {
      FullGroup(a, data[0], data[1], data[2]);
      assert data == [data[0], data[1], data[2]];
    } else if |data| > 0 {
      ShortGroups(a, data[0], if |data| == 2 then data[1] else 0);
      assert data == if |data| == 1 then [data[0]] else [data[0], data[1]];
    }
  }

  lemma PaddedGroups(a: Alphabet, b0: Byte, b1: Byte, b2: Byte)
    ensures DecodePadded(a, EncodePadded(a, [b0])) == Some([b0])
    ensures DecodePadded(a, EncodePadded(a, [b0, b1])) == Some([b0, b1])
    ensures DecodePadded(a, EncodePadded(a, [b0, b1, b2])) == Some([b0, b1, b2])
  {
    ShortGroups(a, b0, b1);
    FullGroup(a, b0, b1, b2);
    CharRoundTrip(a, b1 % 16 * 4);
    CharRoundTrip(a, b2 % 64);
    hide CharOf, DecodeGroup;
    var one, two, three := EncodePadded(a, [b0]), EncodePadded(a, [b0, b1]), EncodePadded(a, [b0, b1, b2]);
    assert one[..2] == EncodeRaw(a, [b0]) && one[2..] == "==";
    assert two[..3] == EncodeRaw(a, [b0, b1]) && two[3] == '=' && two[2] != '=' && two[2..][0] == two[2];
    assert three == EncodeRaw(a, [b0, b1, b2]) && three[3] != '=' && three[2..][1] == three[3];
  }

  /** The padding belongs to the last group. */
  lemma PaddedSplits(a: Alphabet, data: seq<Byte>)
    requires |data| > 3
    ensures EncodePadded(a, data)[..4] == EncodeRaw(a, data[..3])
    ensures EncodePadded(a, data)[4..] == EncodePadded(a, data[3..])
    ensures |EncodePadded(a, data)| > 5
  {
    hide EncodeRaw;
    EncodeSplits(a, data);
  }

  lemma {:induction false} PaddedRoundTrip(a: Alphabet, data: seq<Byte>)
    ensures DecodePadded(a, EncodePadded(a, data)) == Some(data)
  {
    hide EncodeRaw, EncodePadded, DecodeGroup;
    if |data| > 3 {
      PaddedRoundTrip(a, data[3..]);
      PaddedSplits(a, data);
      FullGroup(a, data[0], data[1], data[2]);
      assert data[..3] == [data[0], data[1], data[2]];
      assert data[..3] + data[3..] == data;
    } else if |data| > 0 {
      hide DecodePadded;
      var b1, b2: Byte := if |data| > 1 then data[1] else 0, if |data| > 2 then data[2] else 0;
      PaddedGroups(a, data[0], b1, b2);
      assert data == [data[0]] || data == [data[0], b1] || data == [data[0], b1, b2];
    } else {
      PaddedEmpty(a);
    }
  }

  lemma PaddedEmpty(a: Alphabet)
    ensures EncodePadded(a, []) == ""
  {
  }

  // ---------------------------------------------------------------- the three decoders in turn

  lemma EncodedHasNoBreaks(a: Alphabet, data: seq<Byte>)
    ensures WithoutBreaks(EncodeRaw(a, data)) == EncodeRaw(a, data)
    ensures WithoutBreaks(EncodePadded(a, data)) == EncodePadded(a, data)
  {
    hide EncodeRaw;
    EncodedInAlphabet(a, data);
    NoBreaksToSkip(EncodeRaw(a, data));
    NoBreaksToSkip(EncodePadded(a, data));
  }

  /** Without the two characters that tell the alphabets apart, both encode alike. */
  lemma {:induction false} SameInBoth(data: seq<Byte>)
    requires InAlphabet(UrlSafe, EncodeRaw(Standard, data))
    ensures EncodeRaw(UrlSafe, data) == EncodeRaw(Standard, data)
  {
    var s := EncodeRaw(Standard, data);
    if |data| > 3 {
      EncodeSplits(Standard, data);
      forall i | 0 <= i < |s[4..]|
        ensures ValueOf(UrlSafe, s[4..][i]).Some?
      {
        assert s[4..][i] == s[i + 4];
      }
      SameInBoth(data[3..]);
    }
    if |data| > 0 {
      assert ValueOf(UrlSafe, s[0]).Some? && ValueOf(UrlSafe, s[1]).Some?;
      assert |data| > 1 ==> ValueOf(UrlSafe, s[2]).Some?;
      assert |data| > 2 ==> ValueOf(UrlSafe, s[3]).Some?;
    }
  }

  /**
   * Decoding undoes unpadded base64url, padded base64url and unpadded standard base64 on all bytes:
   * no decoder that is tried earlier takes one of them for something else.
   */
  lemma DecodeBodyRoundTrip(data: seq<Byte>)
    ensures DecodeBody(EncodeRaw(UrlSafe, data)) == Some(data)
    ensures DecodeBody(EncodePadded(UrlSafe, data)) == Some(data)
    ensures DecodeBody(EncodeRaw(Standard, data)) == Some(data)
  {
    hide EncodeRaw, DecodeRaw, DecodePadded;
    EncodedHasNoBreaks(UrlSafe, data);
    EncodedHasNoBreaks(Standard, data);
    RawRoundTrip(UrlSafe, data);
    PaddedRoundTrip(UrlSafe, data);
    RawRoundTrip(Standard, data);
    PaddingIsNoData(UrlSafe, data);
    var s := EncodeRaw(Standard, data);
    if InAlphabet(UrlSafe, s) {
      SameInBoth(data);
    } else {
      StandardIsNoUrl(data, s);
    }
  }

  /** With padding in it, a text is not unpadded base64. */
  lemma PaddingIsNoData(a: Alphabet, data: seq<Byte>)
    ensures |data| % 3 != 0 ==> DecodeRaw(UrlSafe, EncodePadded(a, data)).None? && DecodeRaw(Standard, EncodePadded(a, data)).None?
    ensures |data| % 3 == 0 ==> EncodePadded(a, data) == EncodeRaw(a, data)
  {
    hide EncodeRaw, DecodeRaw;
    var s := EncodePadded(a, data);
    if |data| % 3 != 0 {
      assert s[|s| - 1] == '=';
      assert ValueOf(UrlSafe, s[|s| - 1]).None? && ValueOf(Standard, s[|s| - 1]).None?;
      if DecodeRaw(UrlSafe, s).Some? {
        DecodableInAlphabet(UrlSafe, s);
      }
      if DecodeRaw(Standard, s).Some? {
        DecodableInAlphabet(Standard, s);
      }
    }
  }

  /** With a plus or a slash in it, a text is not base64url, padded or not. */
  lemma StandardIsNoUrl(data: seq<Byte>, s: string)
    requires !InAlphabet(UrlSafe, EncodeRaw(Standard, data))
    requires s == EncodeRaw(Standard, data) || s == EncodePadded(Standard, data)
    ensures DecodeRaw(UrlSafe, s).None? && DecodePadded(UrlSafe, s).None?
  {
    hide EncodeRaw, DecodeRaw, DecodePadded;
    var raw := EncodeRaw(Standard, data);
    EncodedInAlphabet(Standard, data);
    var i :| 0 <= i < |raw| && ValueOf(UrlSafe, raw[i]).None?;
    assert s[i] == raw[i] && ValueOf(Standard, raw[i]).Some?;
    if DecodeRaw(UrlSafe, s).Some? {
      DecodableInAlphabet(UrlSafe, s);
    }
    if DecodePadded(UrlSafe, s).Some? {
      PaddedInAlphabet(UrlSafe, s);
    }
  }

  /**
   * The fourth form, padded standard base64, is not tried. It decodes, and then to the right
   * bytes, exactly when it needs no padding or holds neither plus nor slash.
   */
  lemma PaddedStandardExactly(data: seq<Byte>)
    ensures
      var s := EncodePadded(Standard, data);
      DecodeBody(s) == if |data| % 3 == 0 || InAlphabet(UrlSafe, EncodeRaw(Standard, data)) then Some(data) else None
  {
    hide EncodeRaw, DecodeRaw, DecodePadded;
    EncodedHasNoBreaks(Standard, data);
    DecodeBodyRoundTrip(data);
    PaddingIsNoData(Standard, data);
    if |data| % 3 != 0 {
      if InAlphabet(UrlSafe, EncodeRaw(Standard, data)) {
        SameInBoth(data);
      } else {
        StandardIsNoUrl(data, EncodePadded(Standard, data));
      }
    }
  }

  // ---------------------------------------------------------------- the standard's own values

  /** The two alphabets of tables 1 and 2 of RFC 4648: A to Z, a to z, 0 to 9, and the two that differ. */
  lemma AlphabetTables(a: Alphabet, v: Sextet)
    ensures CharOf(a, 0) == 'A' && CharOf(a, 25) == 'Z' && CharOf(a, 26) == 'a' && CharOf(a, 51) == 'z'
    ensures CharOf(a, 52) == '0' && CharOf(a, 61) == '9'
    ensures v < 61 && v != 25 && v != 51 ==> CharOf(a, v + 1) as int == CharOf(a, v) as int + 1
    ensures CharOf(Standard, 62) == '+' && CharOf(Standard, 63) == '/'
    ensures CharOf(UrlSafe, 62) == '-' && CharOf(UrlSafe, 63) == '_'
  {
  }

  /** The vectors of section 10 of RFC 4648 for "f", "fo" and "foo". */
  lemma StandardVectors()
    ensures EncodePadded(Standard, [102]) == "Zg=="
    ensures EncodePadded(Standard, [102, 111]) == "Zm8="
    ensures EncodePadded(Standard, [102, 111, 111]) == "Zm9v"
  {
    ThreeBytes(Standard, 102, 111, 111);
  }
}
