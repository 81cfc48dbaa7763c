/**
 * Base 64 as section 4 of RFC 4648 defines it, with the clean-up the image
 * handler applies before decoding: drop every character outside
 * `[A-Za-z0-9+/=]`, then pad with '=' to a multiple of four.
 */
module Base64 {
  import opened Wrappers
  import opened Text

  predicate IsAlphabetChar(c: char) {
    ('A' <= c <= 'Z') || ('a' <= c <= 'z') || ('0' <= c <= '9') || c == '+' || c == '/'
  }

  /** The characters the clean-up keeps: the alphabet and the pad character. */
  predicate IsCleanChar(c: char) {
    IsAlphabetChar(c) || c == '='
  }

  /** The alphabet of Table 1 of RFC 4648. */
  function CharOf(v: nat): (c: char)
    requires v < 64
    ensures IsAlphabetChar(c)
  {
    if v < 26 then ('A' as int + v) as char
    else if v < 52 then ('a' as int + (v - 26)) as char
    else if v < 62 then ('0' as int + (v - 52)) as char
    else if v == 62 then '+'
    else '/'
  }

  function ValueOf(c: char): (v: nat)
    requires IsAlphabetChar(c)
    ensures v < 64 && CharOf(v) == c
  {
    if 'A' <= c <= 'Z' then c as int - 'A' as int
    else if 'a' <= c <= 'z' then c as int - 'a' as int + 26
    else if '0' <= c <= '9' then c as int - '0' as int + 52
    else if c == '+' then 62
    else 63
  }

  lemma ValueOfCharOf(v: nat)
    requires v < 64
    ensures ValueOf(CharOf(v)) == v
  {
  }

  /** `re.sub(r"[^A-Za-z0-9+/=]", "", s)`. */
  function Clean(s: string): (r: string)
    ensures |r| <= |s|
    ensures forall i :: 0 <= i < |r| ==> IsCleanChar(r[i])
    decreases |s|
  {
    if |s| == 0 then ""
    else if IsCleanChar(s[0]) then [s[0]] + Clean(s[1..])
    else Clean(s[1..])
  }

  /** Clean-up keeps every alphabet and pad character, as often as it occurs, and nothing else. */
  lemma {:induction false} CleanKeepsCount(s: string, x: char)
    ensures multiset(Clean(s))[x] == if IsCleanChar(x) then multiset(s)[x] else 0
    decreases |s|
  {
    if |s| > 0 {
      CleanKeepsCount(s[1..], x);
      assert s == [s[0]] + s[1..];
      assert multiset(s) == multiset([s[0]]) + multiset(s[1..]);
      if IsCleanChar(s[0]) {
        assert multiset(Clean(s)) == multiset([s[0]]) + multiset(Clean(s[1..]));
      }
    }
  }

  /** A string made of alphabet and pad characters only comes through clean-up unchanged. */
  lemma {:induction false} CleanIdentity(s: string)
    requires forall i :: 0 <= i < |s| ==> IsCleanChar(s[i])
    ensures Clean(s) == s
    decreases |s|
  {
    if |s| > 0 {
      CleanIdentity(s[1..]);
    }
  }

  function Pads(n: nat): (r: string)
    ensures |r| == n && forall i :: 0 <= i < n ==> r[i] == '='
  {
    seq(n, i => '=')
  }

  /** `s += "=" * (4 - len(s) % 4)` when `len(s) % 4 != 0`. */
  function Pad(s: string): (r: string)
    ensures |r| % 4 == 0
    ensures |s| <= |r| <= |s| + 3
    ensures r[..|s|] == s
    ensures forall i :: |s| <= i < |r| ==> r[i] == '='
    ensures |s| % 4 == 0 <==> r == s
  {
    var padding := |s| % 4;
    if padding != 0 then s + Pads(4 - padding) else s
  }

  /** The image handler's clean-up of the thumbnail text before it decodes it. */
  function CleanAndPad(s: string): string {
    Pad(Clean(s))
  }

  /** The four characters that encode three bytes (section 4 of RFC 4648). */
  function EncodeGroup(b0: byte, b1: byte, b2: byte): string {
    [CharOf(b0 / 4), CharOf((b0 % 4) * 16 + b1 / 16), CharOf((b1 % 16) * 4 + b2 / 64), CharOf(b2 % 64)]
  }

  /** `base64.b64encode`: full groups, then a final group padded with '=' when one or two bytes remain. */
  function Encode(b: seq<byte>): (s: string)
    ensures |s| % 4 == 0
    ensures forall i :: 0 <= i < |s| ==> IsCleanChar(s[i])
    decreases |b|
  {
    if |b| == 0 then ""
    else if |b| == 1 then [CharOf(b[0] / 4), CharOf((b[0] % 4) * 16), '=', '=']
    else if |b| == 2 then [CharOf(b[0] / 4), CharOf((b[0] % 4) * 16 + b[1] / 16), CharOf((b[1] % 16) * 4), '=']
    else EncodeGroup(b[0], b[1], b[2]) + Encode(b[3..])
  }

  predicate AllAlphabet(q: string) {
    forall i :: 0 <= i < |q| ==> IsAlphabetChar(q[i])
  }

  function Byte0(v0: nat, v1: nat): byte
    requires v0 < 64 && v1 < 64
  {
    v0 * 4 + v1 / 16
  }

  function Byte1(v1: nat, v2: nat): byte
    requires v1 < 64 && v2 < 64
  {
    (v1 % 16) * 16 + v2 / 4
  }

  function Byte2(v2: nat, v3: nat): byte
    requires v2 < 64 && v3 < 64
  {
    (v2 % 4) * 64 + v3
  }

  /** The last group of four: "xxxx" gives three bytes, "xxx=" two, "xx==" one; anything else is invalid. */
  function DecodeLast(q: string): Option<seq<byte>>
    requires |q| == 4
  {
    if AllAlphabet(q) then
      var v0, v1, v2, v3 := ValueOf(q[0]), ValueOf(q[1]), ValueOf(q[2]), ValueOf(q[3]);
      Some([Byte0(v0, v1), Byte1(v1, v2), Byte2(v2, v3)])
    else if AllAlphabet(q[..3]) && q[3] == '=' then
      var v0, v1, v2 := ValueOf(q[0]), ValueOf(q[1]), ValueOf(q[2]);
      Some([Byte0(v0, v1), Byte1(v1, v2)])
    else if AllAlphabet(q[..2]) && q[2] == '=' && q[3] == '=' then
      var v0, v1 := ValueOf(q[0]), ValueOf(q[1]);
      Some([Byte0(v0, v1)])
    else None
  }

  /**
   * `base64.b64decode(s, validate=True)`: the length is a multiple of four;
   * every group but the last holds four alphabet characters; only the last
   * one may end in one or two '='.
   */
  function Decode(s: string): Option<seq<byte>>
    decreases |s|
  {
    if |s| == 0 then Some([])
    else if |s| < 4 then None
    else if |s| == 4 then DecodeLast(s)
    else if AllAlphabet(s[..4]) then
      match Decode(s[4..])
      case None => None
      case Some(rest) =>
        var v0, v1, v2, v3 := ValueOf(s[0]), ValueOf(s[1]), ValueOf(s[2]), ValueOf(s[3]);
        Some([Byte0(v0, v1), Byte1(v1, v2), Byte2(v2, v3)] + rest)
    else None
  }

  lemma GroupRoundTrip(b0: byte, b1: byte, b2: byte)
    ensures var v0, v1, v2, v3 := b0 / 4, (b0 % 4) * 16 + b1 / 16, (b1 % 16) * 4 + b2 / 64, b2 % 64;
      v0 < 64 && v1 < 64 && v2 < 64 && v3 < 64 &&
      Byte0(v0, v1) == b0 && Byte1(v1, v2) == b1 && Byte2(v2, v3) == b2
  {
    var v1 := (b0 % 4) * 16 + b1 / 16;
    var v2 := (b1 % 16) * 4 + b2 / 64;
    assert v1 / 16 == b0 % 4 && v1 % 16 == b1 / 16;
    assert v2 / 4 == b1 % 16 && v2 % 4 == b2 / 64;
  }

  lemma DecodeEncodeOne(b0: byte)
    ensures Decode(Encode([b0])) == Some([b0])
  {
    var v0, v1 := b0 / 4, (b0 % 4) * 16;
    GroupRoundTrip(b0, 0, 0);
    ValueOfCharOf(v0);
    ValueOfCharOf(v1);
    var s := Encode([b0]);
    assert s == [CharOf(v0), CharOf(v1), '=', '='];
    assert !AllAlphabet(s) by { assert !IsAlphabetChar(s[3]); }
    assert !AllAlphabet(s[..3]) by { assert !IsAlphabetChar(s[..3][2]); }
    assert AllAlphabet(s[..2]);
    assert DecodeLast(s) == Some([Byte0(v0, v1)]);
  }

  lemma DecodeEncodeTwo(b0: byte, b1: byte)
    ensures Decode(Encode([b0, b1])) == Some([b0, b1])
  {
    var v0, v1, v2 := b0 / 4, (b0 % 4) * 16 + b1 / 16, (b1 % 16) * 4;
    GroupRoundTrip(b0, b1, 0);
    ValueOfCharOf(v0);
    ValueOfCharOf(v1);
    ValueOfCharOf(v2);
    var s := Encode([b0, b1]);
    assert s == [CharOf(v0), CharOf(v1), CharOf(v2), '='];
    assert !AllAlphabet(s) by { assert !IsAlphabetChar(s[3]); }
    assert AllAlphabet(s[..3]);
    assert DecodeLast(s) == Some([Byte0(v0, v1), Byte1(v1, v2)]);
  }

  /** The first group of an encoding of three or more bytes decodes to those three bytes. */
  lemma DecodeGroup(b: seq<byte>)
    requires |b| >= 3
    ensures var s := Encode(b);
      |s| >= 4 && AllAlphabet(s[..4]) && s[4..] == Encode(b[3..]) &&
      [Byte0(ValueOf(s[0]), ValueOf(s[1])), Byte1(ValueOf(s[1]), ValueOf(s[2])), Byte2(ValueOf(s[2]), ValueOf(s[3]))] == b[..3]
  {
    var s := Encode(b);
    GroupRoundTrip(b[0], b[1], b[2]);
    ValueOfCharOf(b[0] / 4);
    ValueOfCharOf((b[0] % 4) * 16 + b[1] / 16);
    ValueOfCharOf((b[1] % 16) * 4 + b[2] / 64);
    ValueOfCharOf(b[2] % 64);
    assert s[..4] == EncodeGroup(b[0], b[1], b[2]);
  }

  /** Decoding inverts encoding: the bytes the detector sends are the bytes the handler stores. */
  lemma {:induction false} DecodeEncode(b: seq<byte>)
    ensures Decode(Encode(b)) == Some(b)
    decreases |b|
  {
    if |b| == 1 {
      assert b == [b[0]];
      DecodeEncodeOne(b[0]);
    } else if |b| == 2 {
      assert b == [b[0], b[1]];
      DecodeEncodeTwo(b[0], b[1]);
    } else if |b| >= 3 {
      DecodeGroup(b);
      DecodeEncode(b[3..]);
      var s := Encode(b);
      if |b| == 3 {
        assert s == s[..4];
        assert b == b[..3];
      } else {
        assert |s| > 4;
        assert b == b[..3] + b[3..];
      }
    }
  }

  /** What the encoder writes survives the image handler's clean-up untouched. */
  lemma EncodeSurvivesCleanAndPad(b: seq<byte>)
    ensures CleanAndPad(Encode(b)) == Encode(b)
  {
    CleanIdentity(Encode(b));
  }

  /** A group of one character followed by three '=' can never be decoded. */
  lemma {:induction false} ThreePadsInvalid(s: string)
    requires |s| >= 4 && |s| % 4 == 0
    requires s[|s| - 3] == '=' && s[|s| - 2] == '=' && s[|s| - 1] == '='
    ensures Decode(s) == None
    decreases |s|
  {
    if |s| == 4 {
      assert !AllAlphabet(s) && !AllAlphabet(s[..3]) && !AllAlphabet(s[..2]);
    } else {
      var t := s[4..];
      assert t[|t| - 3] == '=' && t[|t| - 2] == '=' && t[|t| - 1] == '=';
      ThreePadsInvalid(t);
    }
  }

  /**
   * When the cleaned text is one character longer than a multiple of four,
   * padding adds three '=' and decoding fails, so the handler reports an error.
   */
  lemma OneOverFourFails(s: string)
    requires |Clean(s)| % 4 == 1
    ensures |CleanAndPad(s)| == |Clean(s)| + 3
    ensures Decode(CleanAndPad(s)) == None
  {
    var p := CleanAndPad(s);
    var n := |Clean(s)|;
    assert |p| == n + 3;
    ThreePadsInvalid(p);
  }

  /** Decoding a string of `4k` characters (with `k > 0`) whose last group has `q` pads gives `3k - q` bytes. */
  lemma {:induction false} DecodeLength(s: string)
    requires Decode(s).Some?
    ensures |s| % 4 == 0
    ensures |s| > 0 ==> 3 * (|s| / 4) - 2 <= |Decode(s).value| <= 3 * (|s| / 4)
    decreases |s|
  {
    if |s| == 4 {
      DecodeLastLength(s);
    } else if |s| > 4 {
      DecodeLength(s[4..]);
      assert |Decode(s).value| == 3 + |Decode(s[4..]).value|;
      assert |s| / 4 == |s[4..]| / 4 + 1;
    }
  }

  /** A last group decodes to one, two or three bytes. */
  lemma DecodeLastLength(q: string)
    requires |q| == 4 && DecodeLast(q).Some?
    ensures 1 <= |DecodeLast(q).value| <= 3
  {
  }

  /*
   * Decoding without validation, as CPython's `binascii.a2b_base64` does it
   * when it is not in strict mode: characters outside the alphabet are
   * skipped, '=' before the third character of a group is skipped, and a
   * pad that completes a group ends the input.
   */

  /**
   * The decoder's position in the current group of four, the bits carried
   * over from the last character, the '=' seen since the last data character,
   * the number of data characters read and the bytes written so far.
   */
  datatype Cursor = Cursor(quadPos: nat, left: nat, pads: nat, dataChars: nat, out: seq<byte>)

  predicate ValidCursor(st: Cursor) {
    match st.quadPos
    case 0 => st.left == 0
    case 1 => st.left < 64
    case 2 => st.left < 16
    case 3 => st.left < 4
    case _ => false
  }

  function Start(out: seq<byte>, dataChars: nat): Cursor {
    Cursor(0, 0, 0, dataChars, out)
  }

  /** One data character of value `v`: a byte is complete after the second, third and fourth character of a group. */
  function Step(st: Cursor, v: nat): (r: Cursor)
    requires ValidCursor(st) && v < 64
    ensures ValidCursor(r) && r.pads == 0 && r.dataChars == st.dataChars + 1
  {
    var n := st.dataChars + 1;
    match st.quadPos
    case 0 => Cursor(1, v, 0, n, st.out)
    case 1 => Cursor(2, v % 16, 0, n, st.out + [st.left * 4 + v / 16])
    case 2 => Cursor(3, v % 4, 0, n, st.out + [st.left * 16 + v / 4])
    case 3 => Cursor(0, 0, 0, n, st.out + [st.left * 64 + v])
  }

  /** The end of the input: a group left open is an error. */
  function Finish(st: Cursor): Result<seq<byte>> {
    if st.quadPos == 0 then Ok(st.out)
    else if st.quadPos == 1 then
      Err("Invalid base64-encoded string: number of data characters (" + NatToString(st.dataChars) +
          ") cannot be 1 more than a multiple of 4")
    else Err("Incorrect padding")
  }

  function Run(s: string, st: Cursor): Result<seq<byte>>
    requires ValidCursor(st)
    decreases |s|
  {
    if |s| == 0 then Finish(st)
    else if s[0] == '=' then
      if st.quadPos >= 2 && st.quadPos + st.pads + 1 >= 4 then Ok(st.out)
      else Run(s[1..], if st.quadPos >= 2 then st.(pads := st.pads + 1) else st)
    else if IsAlphabetChar(s[0]) then Run(s[1..], Step(st, ValueOf(s[0])))
    else Run(s[1..], st)
  }

  predicate IsAscii(s: string) {
    forall i :: 0 <= i < |s| ==> s[i] as int < 128
  }

  /** `base64.b64decode(s)`: only ASCII text is accepted, then it is decoded without validation. */
  function DecodeLenient(s: string): Result<seq<byte>> {
    if !IsAscii(s) then Err("string argument should contain only ASCII characters")
    else Run(s, Start([], 0))
  }

  /** The lenient decoder pays no attention to characters outside the alphabet and '='. */
  lemma {:induction false} RunIgnoresUnclean(s: string, st: Cursor)
    requires ValidCursor(st)
    ensures Run(s, st) == Run(Clean(s), st)
    decreases |s|
  {
    if |s| > 0 {
      RunIgnoresUnclean(s[1..], st);
      if IsCleanChar(s[0]) {
        var c := Clean(s);
        assert c[0] == s[0] && c[1..] == Clean(s[1..]);
        if s[0] == '=' {
          RunIgnoresUnclean(s[1..], if st.quadPos >= 2 then st.(pads := st.pads + 1) else st);
        } else {
          RunIgnoresUnclean(s[1..], Step(st, ValueOf(s[0])));
        }
      }
    }
  }

  lemma RunData(c: char, rest: string, st: Cursor)
    requires ValidCursor(st) && IsAlphabetChar(c)
    ensures Run([c] + rest, st) == Run(rest, Step(st, ValueOf(c)))
  {
    assert ([c] + rest)[1..] == rest;
  }

  lemma RunGroup(b0: byte, b1: byte, b2: byte, rest: string, out: seq<byte>, d: nat)
    ensures Run(EncodeGroup(b0, b1, b2) + rest, Start(out, d)) == Run(rest, Start(out + [b0, b1, b2], d + 4))
  {
    var v0, v1, v2, v3 := b0 / 4, (b0 % 4) * 16 + b1 / 16, (b1 % 16) * 4 + b2 / 64, b2 % 64;
    GroupRoundTrip(b0, b1, b2);
    ValueOfCharOf(v0);
    ValueOfCharOf(v1);
    ValueOfCharOf(v2);
    ValueOfCharOf(v3);
    var c0, c1, c2, c3 := CharOf(v0), CharOf(v1), CharOf(v2), CharOf(v3);
    var st1 := Step(Start(out, d), v0);
    var st2 := Step(st1, v1);
    var st3 := Step(st2, v2);
    var st4 := Step(st3, v3);
    assert EncodeGroup(b0, b1, b2) + rest == [c0] + ([c1] + ([c2] + ([c3] + rest)));
    RunData(c0, [c1] + ([c2] + ([c3] + rest)), Start(out, d));
    RunData(c1, [c2] + ([c3] + rest), st1);
    RunData(c2, [c3] + rest, st2);
    RunData(c3, rest, st3);
    assert st2.out == out + [b0];
    assert st3.out == out + [b0, b1];
    assert st4 == Start(out + [b0, b1, b2], d + 4);
  }

  /** Two pads after the second data character of a group end the input. */
  lemma RunTwoPads(st: Cursor)
    requires ValidCursor(st) && st.quadPos == 2 && st.pads == 0
    ensures Run("==", st) == Ok(st.out)
  {
    assert "=="[1..] == "=";
    assert Run("==", st) == Run("=", st.(pads := 1));
  }

  lemma RunOneByte(b0: byte, out: seq<byte>, d: nat)
    ensures Run(Encode([b0]), Start(out, d)) == Ok(out + [b0])
  {
    var v0, v1 := b0 / 4, (b0 % 4) * 16;
    ValueOfCharOf(v0);
    ValueOfCharOf(v1);
    var c0, c1 := CharOf(v0), CharOf(v1);
    var st1 := Step(Start(out, d), v0);
    var st2 := Step(st1, v1);
    assert Encode([b0]) == [c0] + ([c1] + "==");
    RunData(c0, [c1] + "==", Start(out, d));
    RunData(c1, "==", st1);
    assert st2.quadPos == 2 && st2.pads == 0;
    RunTwoPads(st2);
    assert st2.out == out + [b0] by {
      assert v1 / 16 == b0 % 4;
      assert v0 * 4 + b0 % 4 == b0;
    }
  }

  lemma RunTwoBytes(b0: byte, b1: byte, out: seq<byte>, d: nat)
    ensures Run(Encode([b0, b1]), Start(out, d)) == Ok(out + [b0, b1])
  {
    var v0, v1, v2 := b0 / 4, (b0 % 4) * 16 + b1 / 16, (b1 % 16) * 4;
    GroupRoundTrip(b0, b1, 0);
    ValueOfCharOf(v0);
    ValueOfCharOf(v1);
    ValueOfCharOf(v2);
    var c0, c1, c2 := CharOf(v0), CharOf(v1), CharOf(v2);
    var st1 := Step(Start(out, d), v0);
    var st2 := Step(st1, v1);
    var st3 := Step(st2, v2);
    assert Encode([b0, b1]) == [c0] + ([c1] + ([c2] + "="));
    RunData(c0, [c1] + ([c2] + "="), Start(out, d));
    RunData(c1, [c2] + "=", st1);
    RunData(c2, "=", st2);
    assert st3.out == out + [b0, b1] && st3.quadPos == 3 && st3.pads == 0;
    RunOnePad(st3);
  }

  /** One pad after the third data character of a group ends the input. */
  lemma RunOnePad(st: Cursor)
    requires ValidCursor(st) && st.quadPos == 3 && st.pads == 0
    ensures Run("=", st) == Ok(st.out)
  {
  }

  /** The last, partial group of an encoding decodes to its one or two bytes. */
  lemma RunEncodeShort(b: seq<byte>, out: seq<byte>, d: nat)
    requires |b| <= 2
    ensures Run(Encode(b), Start(out, d)) == Ok(out + b)
  {
    if |b| == 0 {
      assert out + b == out;
    } else if |b| == 1 {
      assert b == [b[0]];
      RunOneByte(b[0], out, d);
    } else {
      assert b == [b[0], b[1]];
      RunTwoBytes(b[0], b[1], out, d);
    }
  }

  lemma EncodeFront(b: seq<byte>)
    requires |b| >= 3
    ensures Encode(b) == EncodeGroup(b[0], b[1], b[2]) + Encode(b[3..])
  {
  }

  lemma RunGroupFront(b: seq<byte>, out: seq<byte>, d: nat)
    requires |b| >= 3
    ensures Run(EncodeGroup(b[0], b[1], b[2]) + Encode(b[3..]), Start(out, d))
      == Run(Encode(b[3..]), Start(out + b[..3], d + 4))
  {
    RunGroup(b[0], b[1], b[2], Encode(b[3..]), out, d);
    assert b[..3] == [b[0], b[1], b[2]];
  }

  /** A full group in front of the rest of an encoding decodes to its three bytes. */
  lemma RunEncodeGroup(b: seq<byte>, out: seq<byte>, d: nat)
    requires |b| >= 3
    ensures Run(Encode(b), Start(out, d)) == Run(Encode(b[3..]), Start(out + b[..3], d + 4))
  {
    EncodeFront(b);
    RunGroupFront(b, out, d);
  }

  lemma {:induction false} RunEncode(b: seq<byte>, out: seq<byte>, d: nat)
    ensures Run(Encode(b), Start(out, d)) == Ok(out + b)
    decreases |b|
  {
    if |b| <= 2 {
      RunEncodeShort(b, out, d);
    } else {
      RunEncodeGroup(b, out, d);
      RunEncode(b[3..], out + b[..3], d + 4);
      assert out + b[..3] + b[3..] == out + b by {
        assert b[..3] + b[3..] == b;
      }
    }
  }

  /** The lenient decoder also inverts encoding: a client that sends `b64encode(data)` stores `data`. */
  lemma DecodeLenientEncode(b: seq<byte>)
    ensures DecodeLenient(Encode(b)) == Ok(b)
  {
    var s := Encode(b);
    assert IsAscii(s) by {
      forall i | 0 <= i < |s| ensures s[i] as int < 128 {
        assert IsCleanChar(s[i]);
      }
    }
    RunEncode(b, [], 0);
    assert [] + b == b;
  }
}
