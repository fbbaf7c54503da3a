/** `_b64url_to_bytes`: Gmail hands message bodies and attachments over as
    URL-safe base64, usually without padding. The helper pads the string to a
    multiple of four and calls `base64.urlsafe_b64decode`, which rejects
    non-ASCII text, maps `-`/`_` to `+`/`/`, and runs the non-strict
    `binascii.a2b_base64` decoder: characters outside the alphabet are
    skipped, and a pad sequence ends the input. */
module Base64Url {
  import opened Text

  type byte = x: int | 0 <= x < 256

  datatype DecodeError =
    | NonAscii          // `str` argument with a code point above 127: ValueError
    | ExcessDataChar    // one data character more than a multiple of four
    | IncorrectPadding  // two or three data characters left without enough '='

  datatype Decoded = Ok(bytes: seq<byte>) | Err(error: DecodeError)

  /** The padded string handed to the decoder: `4 - len % 4` '=' characters
      are appended unless that number is 4. */
  function Padded(s: string): (r: string)
    ensures |r| % 4 == 0
    ensures StartsWith(r, s) && |r| - |s| < 4
    ensures forall i :: |s| <= i < |r| ==> r[i] == '='
  {
    var n := 4 - |s| % 4;
    if n != 4 then s + Repeat('=', n) else s
  }

  predicate IsAscii(c: char) { c as int < 128 }

  /** `urlsafe_b64decode` first swaps the URL-safe characters back. */
  function Translate(c: char): char
  {
    if c == '-' then '+' else if c == '_' then '/' else c
  }

  /** Value of a character in the standard alphabet, or `None` when the
      decoder skips it. */
  function Sextet(c: char): (r: Option<nat>)
    ensures r.Some? ==> r.value < 64
  {
    if 'A' <= c <= 'Z' then Some(c as int - 'A' as int)
    else if 'a' <= c <= 'z' then Some(c as int - 'a' as int + 26)
    else if '0' <= c <= '9' then Some(c as int - '0' as int + 52)
    else if c == '+' then Some(62)
    else if c == '/' then Some(63)
    else None
  }

  /** How many low bits of the previous character are still pending. */
  function LeftBound(quad: nat): nat
  {
    if quad == 0 then 1 else if quad == 1 then 64 else if quad == 2 then 16 else 4
  }

  /** The decoder loop from position 0 of `s` onward, in state `quad`
      (data characters seen in the current group), `left` (pending bits),
      `pads` ('=' counted so far, never reset) and `out`. */
  function DecodeFrom(s: string, quad: nat, left: nat, pads: nat, out: seq<byte>): Decoded
    requires quad < 4 && left < LeftBound(quad)
    decreases |s|
  {
    if s == [] then
      if quad == 0 then Ok(out)
      else if quad == 1 then Err(ExcessDataChar)
      else Err(IncorrectPadding)
    else
      var c := Translate(s[0]);
      if c == '=' then
        if quad >= 2 && quad + pads + 1 >= 4 then Ok(out)
        else DecodeFrom(s[1..], quad, left, if quad >= 2 then pads + 1 else pads, out)
      else match Sextet(c)
        case None => DecodeFrom(s[1..], quad, left, pads, out)
        case Some(v) =>
          if quad == 0 then DecodeFrom(s[1..], 1, v, pads, out)
          else if quad == 1 then DecodeFrom(s[1..], 2, v % 16, pads, out + [left * 4 + v / 16])
          else if quad == 2 then DecodeFrom(s[1..], 3, v % 4, pads, out + [left * 16 + v / 4])
          else DecodeFrom(s[1..], 0, 0, pads, out + [left * 64 + v])
  }

  /** `_b64url_to_bytes(s)`. */
  function B64UrlToBytes(s: string): (r: Decoded)
    ensures s == [] ==> r == Ok([])
    ensures (exists i :: 0 <= i < |s| && !IsAscii(s[i])) ==> r == Err(NonAscii)
  {
    if s == [] then Ok([])
    else
      var p := Padded(s);
      if exists i :: 0 <= i < |p| && !IsAscii(p[i]) then Err(NonAscii)
      else DecodeFrom(p, 0, 0, 0, [])
  }

  // ---------------------------------------------------------------------
  // The inverse: URL-safe base64 without padding, as Gmail produces it.

  function AlphabetChar(v: nat): (c: char)
    requires v < 64
    ensures IsAscii(c) && c != '='
  {
    if v < 26 then ('A' as int + v) as char
    else if v < 52 then ('a' as int + v - 26) as char
    else if v < 62 then ('0' as int + v - 52) as char
    else if v == 62 then '-'
    else '_'
  }

  lemma SextetOfAlphabetChar(v: nat)
    requires v < 64
    ensures Translate(AlphabetChar(v)) != '='
    ensures Sextet(Translate(AlphabetChar(v))) == Some(v)
  {
  }

  lemma ShiftMod(n: nat)
    ensures (n + 4) % 4 == n % 4 && (n + 3) % 3 == n % 3
  {
  }

  /** Three bytes as four characters. */
  function Group(x: byte, y: byte, z: byte): (g: string)
    ensures |g| == 4
    ensures forall i :: 0 <= i < 4 ==> IsAscii(g[i]) && g[i] != '='
  {
    [AlphabetChar(x / 4), AlphabetChar(x % 4 * 16 + y / 16),
     AlphabetChar(y % 16 * 4 + z / 64), AlphabetChar(z % 64)]
  }

  /** URL-safe base64 of `b` with the trailing '=' left off. */
  function Encode(b: seq<byte>): (r: string)
    ensures forall i :: 0 <= i < |r| ==> IsAscii(r[i]) && r[i] != '='
    ensures |r| % 4 != 1
    ensures |r| % 4 == 0 <==> |b| % 3 == 0
  {
    if |b| == 0 then []
    else if |b| == 1 then [AlphabetChar(b[0] / 4), AlphabetChar(b[0] % 4 * 16)]
    else if |b| == 2 then
      [AlphabetChar(b[0] / 4), AlphabetChar(b[0] % 4 * 16 + b[1] / 16), AlphabetChar(b[1] % 16 * 4)]
    else
      var g, rest := Group(b[0], b[1], b[2]), Encode(b[3..]);
      assert forall i :: 0 <= i < |rest| ==> (g + rest)[4 + i] == rest[i];
      ShiftMod(|rest|);
      ShiftMod(|b[3..]|);
      g + rest
  }

  /** One data character of the decoder loop. */
  lemma DecodeDataChar(v: nat, rest: string, quad: nat, left: nat, pads: nat, out: seq<byte>)
    requires v < 64 && quad < 4 && left < LeftBound(quad)
    requires quad == 1 ==> left * 4 + v / 16 < 256
    requires quad == 2 ==> left * 16 + v / 4 < 256
    requires quad == 3 ==> left * 64 + v < 256
    ensures DecodeFrom([AlphabetChar(v)] + rest, quad, left, pads, out) ==
            if quad == 0 then DecodeFrom(rest, 1, v, pads, out)
            else if quad == 1 then DecodeFrom(rest, 2, v % 16, pads, out + [left * 4 + v / 16])
            else if quad == 2 then DecodeFrom(rest, 3, v % 4, pads, out + [left * 16 + v / 4])
            else DecodeFrom(rest, 0, 0, pads, out + [left * 64 + v])
  {
    SextetOfAlphabetChar(v);
    var s := [AlphabetChar(v)] + rest;
    assert s[0] == AlphabetChar(v) && s[1..] == rest;
  }

  /** Four data characters, whose sextets carry the bits of `x`, `y` and
      `z`, decode to those three bytes. */
  lemma DecodeFourChars(c0: nat, c1: nat, c2: nat, c3: nat, x: byte, y: byte, z: byte,
                        rest: string, pads: nat, out: seq<byte>)
    requires c0 < 64 && c1 < 64 && c2 < 64 && c3 < 64
    requires c0 * 4 + c1 / 16 == x && c1 % 16 * 16 + c2 / 4 == y && c2 % 4 * 64 + c3 == z
    ensures DecodeFrom([AlphabetChar(c0), AlphabetChar(c1), AlphabetChar(c2), AlphabetChar(c3)] + rest, 0, 0, pads, out)
            == DecodeFrom(rest, 0, 0, pads, out + [x, y, z])
  {
    var s3 := [AlphabetChar(c3)] + rest;
    var s2 := [AlphabetChar(c2)] + s3;
    var s1 := [AlphabetChar(c1)] + s2;
    assert [AlphabetChar(c0), AlphabetChar(c1), AlphabetChar(c2), AlphabetChar(c3)] + rest == [AlphabetChar(c0)] + s1;
    DecodeDataChar(c0, s1, 0, 0, pads, out);
    DecodeDataChar(c1, s2, 1, c0, pads, out);
    DecodeDataChar(c2, s3, 2, c1 % 16, pads, out + [x]);
    DecodeDataChar(c3, rest, 3, c2 % 4, pads, out + [x] + [y]);
    assert out + [x] + [y] + [z] == out + [x, y, z];
  }

  /** One full group of four characters decodes to its three bytes. */
  lemma DecodeGroup(x: byte, y: byte, z: byte, rest: string, pads: nat, out: seq<byte>)
    ensures DecodeFrom(Group(x, y, z) + rest, 0, 0, pads, out) == DecodeFrom(rest, 0, 0, pads, out + [x, y, z])
  {
    var c0, c1, c2, c3 := x / 4, x % 4 * 16 + y / 16, y % 16 * 4 + z / 64, z % 64;
    assert c0 * 4 + c1 / 16 == x && c1 % 16 * 16 + c2 / 4 == y && c2 % 4 * 64 + c3 == z by {
      assert c1 / 16 == x % 4 && c1 % 16 == y / 16;
      assert c2 / 4 == y % 16 && c2 % 4 == z / 64;
    }
    DecodeFourChars(c0, c1, c2, c3, x, y, z, rest, pads, out);
  }

  /** A final single byte: two characters and "==". */
  lemma DecodeLastByte(x: byte, out: seq<byte>)
    ensures DecodeFrom(Padded(Encode([x])), 0, 0, 0, out) == Ok(out + [x])
  {
    var c0, c1 := x / 4, x % 4 * 16;
    SextetOfAlphabetChar(c0);
    SextetOfAlphabetChar(c1);
    var p := Padded(Encode([x]));
    assert p == [AlphabetChar(c0), AlphabetChar(c1), '=', '='];
    assert c0 * 4 + c1 / 16 == x;
    assert p[1..][1..] == p[2..] && p[2..][1..] == p[3..];
    assert DecodeFrom(p, 0, 0, 0, out) == DecodeFrom(p[1..], 1, c0, 0, out);
    assert DecodeFrom(p[1..], 1, c0, 0, out) == DecodeFrom(p[2..], 2, c1 % 16, 0, out + [x]);
    assert DecodeFrom(p[2..], 2, c1 % 16, 0, out + [x]) == DecodeFrom(p[3..], 2, c1 % 16, 1, out + [x]);
  }

  /** Two final bytes: three characters and "=". */
  lemma DecodeLastTwoBytes(x: byte, y: byte, out: seq<byte>)
    ensures DecodeFrom(Padded(Encode([x, y])), 0, 0, 0, out) == Ok(out + [x, y])
  {
    var c0, c1, c2 := x / 4, x % 4 * 16 + y / 16, y % 16 * 4;
    SextetOfAlphabetChar(c0);
    SextetOfAlphabetChar(c1);
    SextetOfAlphabetChar(c2);
    var p := Padded(Encode([x, y]));
    assert p == [AlphabetChar(c0), AlphabetChar(c1), AlphabetChar(c2), '='];
    assert c0 * 4 + c1 / 16 == x;
    assert c1 % 16 * 16 + c2 / 4 == y;
    assert p[1..][1..] == p[2..] && p[2..][1..] == p[3..];
    assert DecodeFrom(p, 0, 0, 0, out) == DecodeFrom(p[1..], 1, c0, 0, out);
    assert DecodeFrom(p[1..], 1, c0, 0, out) == DecodeFrom(p[2..], 2, c1 % 16, 0, out + [x]);
    assert DecodeFrom(p[2..], 2, c1 % 16, 0, out + [x]) == DecodeFrom(p[3..], 3, c2 % 4, 0, out + [x] + [y]);
    assert out + [x] + [y] == out + [x, y];
  }

  lemma PaddedAfterGroup(g: string, rest: string)
    requires |g| == 4
    ensures Padded(g + rest) == g + Padded(rest)
  {
    assert |g + rest| % 4 == |rest| % 4;
  }

  /** The encoding of `b` followed by the padding `Padded` appends decodes
      to `b`. */
  lemma {:induction false} DecodeEncoded(b: seq<byte>, out: seq<byte>)
    ensures DecodeFrom(Padded(Encode(b)), 0, 0, 0, out) == Ok(out + b)
    decreases |b|
  {
    if |b| == 0 {
      assert Padded(Encode(b)) == [];
    } else if |b| == 1 {
      assert b == [b[0]];
      DecodeLastByte(b[0], out);
    } else if |b| == 2 {
      assert b == [b[0], b[1]];
      DecodeLastTwoBytes(b[0], b[1], out);
    } else {
      DecodeEncoded(b[3..], out + [b[0], b[1], b[2]]);
      DecodeFirstGroup(b, out);
    }
  }

  /** Decoding a full first group leaves the rest to decode. */
  lemma DecodeFirstGroup(b: seq<byte>, out: seq<byte>)
    requires |b| >= 3
    requires DecodeFrom(Padded(Encode(b[3..])), 0, 0, 0, out + [b[0], b[1], b[2]]) == Ok(out + [b[0], b[1], b[2]] + b[3..])
    ensures DecodeFrom(Padded(Encode(b)), 0, 0, 0, out) == Ok(out + b)
  {
    var g, rest := Group(b[0], b[1], b[2]), Encode(b[3..]);
    assert Padded(Encode(b)) == g + Padded(rest) by {
      assert Encode(b) == g + rest;
      PaddedAfterGroup(g, rest);
    }
    DecodeGroup(b[0], b[1], b[2], Padded(rest), 0, out);
    assert out + [b[0], b[1], b[2]] + b[3..] == out + b;
  }

  /** Round trip: whatever bytes Gmail encodes, `_b64url_to_bytes` recovers. */
  lemma B64UrlRoundTrip(b: seq<byte>)
    ensures B64UrlToBytes(Encode(b)) == Ok(b)
  {
    var e := Encode(b);
    if b == [] {
      assert e == [];
    } else {
      assert |e| >= 2;
      var p := Padded(e);
      forall i | 0 <= i < |p| ensures IsAscii(p[i]) {
        if i < |e| { assert p[i] == e[i]; }
      }
      DecodeEncoded(b, []);
    }
  }

  /** A single stray data character cannot be decoded, however it is padded. */
  lemma LoneCharacterRejected(c: char)
    requires Sextet(Translate(c)).Some?
    ensures B64UrlToBytes([c]) == Err(ExcessDataChar)
  {
    var p := Padded([c]);
    var v := Sextet(Translate(c)).value;
    assert p == [c, '=', '=', '='];
    assert DecodeFrom(p, 0, 0, 0, []) == DecodeFrom(p[1..], 1, v, 0, []);
    assert p[1..][1..] == p[2..] && p[2..][1..] == p[3..] && p[3..][1..] == [];
    assert DecodeFrom(p[1..], 1, v, 0, []) == DecodeFrom(p[2..], 1, v, 0, []);
    assert DecodeFrom(p[2..], 1, v, 0, []) == DecodeFrom(p[3..], 1, v, 0, []);
    assert DecodeFrom(p[3..], 1, v, 0, []) == DecodeFrom([], 1, v, 0, []);
  }
}
