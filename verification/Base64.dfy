/**
Standard padded base64 and the backend's test for it. The test accepts exactly
the encodings, so one byte string has one accepted spelling (sections 3.5 and 4
of RFC 4648).
*/
module Base64 {
  import opened Text

  // Two bits. A byte is four pairs of bits, most significant first, and a
  // character stands for three: three bytes are four characters.
  type Pair = n: nat | n < 4

  datatype Byte = Byte(a: Pair, b: Pair, c: Pair, d: Pair)

  datatype Sextet = Sextet(x: Pair, y: Pair, z: Pair)

  // Which quarter of [0, 4u) holds i: the top pair of bits of i.
  function Quarter(i: nat, u: nat): Pair {
    if i < u then 0 else if i < u + u then 1 else if i < u + u + u then 2 else 3
  }

  // ---- The codec ----

  function SextetChar(s: Sextet): char {
    var i := 16 * s.x + 4 * s.y + s.z;
    if i < 26 then 'A' + i as char
    else if i < 52 then 'a' + (i - 26) as char
    else if i < 62 then '0' + (i - 52) as char
    else if i == 62 then '+' else '/'
  }

  predicate IsB64Char(c: char) {
    'A' <= c <= 'Z' || 'a' <= c <= 'z' || '0' <= c <= '9' || c == '+' || c == '/'
  }

  function SextetOf(c: char): Sextet
    requires IsB64Char(c)
  {
    var i: nat :=
      if 'A' <= c <= 'Z' then (c - 'A') as nat
      else if 'a' <= c <= 'z' then 26 + (c - 'a') as nat
      else if '0' <= c <= '9' then 52 + (c - '0') as nat
      else if c == '+' then 62 else 63;
    var x := Quarter(i, 16);
    var y := Quarter(i - 16 * x, 4);
    Sextet(x, y, i - 16 * x - 4 * y)
  }

  function Encode3(p: Byte, q: Byte, r: Byte): string {
    [SextetChar(Sextet(p.a, p.b, p.c)), SextetChar(Sextet(p.d, q.a, q.b)),
     SextetChar(Sextet(q.c, q.d, r.a)), SextetChar(Sextet(r.b, r.c, r.d))]
  }

  function Encode2(p: Byte, q: Byte): string {
    [SextetChar(Sextet(p.a, p.b, p.c)), SextetChar(Sextet(p.d, q.a, q.b)), SextetChar(Sextet(q.c, q.d, 0)), '=']
  }

  function Encode1(p: Byte): string {
    [SextetChar(Sextet(p.a, p.b, p.c)), SextetChar(Sextet(p.d, 0, 0)), '=', '=']
  }

  function Encode(bs: seq<Byte>): string {
    if bs == [] then ""
    else if |bs| == 1 then Encode1(bs[0])
    else if |bs| == 2 then Encode2(bs[0], bs[1])
    else Encode3(bs[0], bs[1], bs[2]) + Encode(bs[3..])
  }

  // One group of four characters. Unused trailing bits are dropped, as
  // `b64decode(validate=True)` drops them: "QQ==" and "QR==" both give one 'A'.
  // Only the last group may be padded.
  function DecodeGroup(g: string, last: bool): Option<seq<Byte>>
    requires |g| == 4
  {
    if !IsB64Char(g[0]) || !IsB64Char(g[1]) then None
    else
      var s, t := SextetOf(g[0]), SextetOf(g[1]);
      var p := Byte(s.x, s.y, s.z, t.x);
      if last && g[2] == '=' && g[3] == '=' then Some([p])
      else if !IsB64Char(g[2]) then None
      else
        var u := SextetOf(g[2]);
        var q := Byte(t.y, t.z, u.x, u.y);
        if last && g[3] == '=' then Some([p, q])
        else if !IsB64Char(g[3]) then None
        else
          var w := SextetOf(g[3]);
          Some([p, q, Byte(u.z, w.x, w.y, w.z)])
  }

  // None where the library raises.
  function Decode(s: string): Option<seq<Byte>> {
    if s == "" then Some([])
    else if |s| < 4 then None
    else
      match DecodeGroup(s[..4], |s| == 4)
      case None => None
      case Some(head) =>
        match Decode(s[4..]) {
          case None => None
          case Some(tail) => Some(head + tail)
        }
  }

  // ---- The backend's test ----

  predicate AllB64Chars(s: string) { forall i :: 0 <= i < |s| ==> IsB64Char(s[i]) }

  // `[A-Za-z0-9+/]+={0,2}`
  predicate PaddedBody(s: string) {
    || (s != "" && AllB64Chars(s))
    || (|s| > 1 && s[|s| - 1] == '=' && AllB64Chars(s[..|s| - 1]))
    || (|s| > 2 && s[|s| - 1] == '=' && s[|s| - 2] == '=' && AllB64Chars(s[..|s| - 2]))
  }

  // The same between `^` and `$`, which lets one final newline through.
  predicate MatchesB64(s: string) {
    PaddedBody(s) || (s != "" && s[|s| - 1] == '\n' && PaddedBody(s[..|s| - 1]))
  }

  predicate HasB64Shape(v: string) { v != "" && |v| % 4 == 0 && MatchesB64(v) }

  predicate IsB64(v: string) {
    HasB64Shape(v) && Decode(v).Some? && Encode(Decode(v).value) == v
  }

  function B64Chars(byteLen: nat): nat { (byteLen + 2) / 3 * 4 }

  // ---- Round trip ----

  lemma SextetRoundTrip(s: Sextet)
    ensures IsB64Char(SextetChar(s)) && SextetOf(SextetChar(s)) == s
  {
  }

  lemma Group3(p: Byte, q: Byte, r: Byte, last: bool)
    ensures DecodeGroup(Encode3(p, q, r), last) == Some([p, q, r])
    ensures AllB64Chars(Encode3(p, q, r))
  {
    SextetRoundTrip(Sextet(p.a, p.b, p.c));
    SextetRoundTrip(Sextet(p.d, q.a, q.b));
    SextetRoundTrip(Sextet(q.c, q.d, r.a));
    SextetRoundTrip(Sextet(r.b, r.c, r.d));
  }

  lemma Group2(p: Byte, q: Byte)
    ensures DecodeGroup(Encode2(p, q), true) == Some([p, q])
    ensures AllB64Chars(Encode2(p, q)[..3])
  {
    SextetRoundTrip(Sextet(p.a, p.b, p.c));
    SextetRoundTrip(Sextet(p.d, q.a, q.b));
    SextetRoundTrip(Sextet(q.c, q.d, 0));
  }

  lemma Group1(p: Byte)
    ensures DecodeGroup(Encode1(p), true) == Some([p])
    ensures AllB64Chars(Encode1(p)[..2])
  {
    SextetRoundTrip(Sextet(p.a, p.b, p.c));
    SextetRoundTrip(Sextet(p.d, 0, 0));
  }

  lemma {:induction false} EncodeLength(bs: seq<Byte>)
    ensures |Encode(bs)| == B64Chars(|bs|)
  {
    if |bs| > 2 {
      EncodeLength(bs[3..]);
      OneMoreGroup(|bs| - 3);
    }
  }

  lemma OneMoreGroup(n: nat)
    ensures B64Chars(n + 3) == B64Chars(n) + 4
  {
    assert (n + 3 + 2) / 3 == (n + 2) / 3 + 1;
  }

  lemma DecodeLast(g: string, head: seq<Byte>)
    requires |g| == 4 && DecodeGroup(g, true) == Some(head)
    ensures Decode(g) == Some(head)
  {
    assert g + "" == g && head + [] == head;
  }

  lemma DecodeEncode1(a: Byte)
    ensures Decode(Encode1(a)) == Some([a])
  {
    Group1(a);
    DecodeLast(Encode1(a), [a]);
  }

  lemma DecodeEncode2(a: Byte, b: Byte)
    ensures Decode(Encode2(a, b)) == Some([a, b])
  {
    Group2(a, b);
    DecodeLast(Encode2(a, b), [a, b]);
  }

  lemma DecodeEncodeStep(a: Byte, b: Byte, c: Byte, rest: string, tail: seq<Byte>)
    requires Decode(rest) == Some(tail)
    ensures Decode(Encode3(a, b, c) + rest) == Some([a, b, c] + tail)
  {
    Group3(a, b, c, rest == "");
  }

  lemma DecodeEncodeOne(bs: seq<Byte>)
    requires |bs| == 1
    ensures Decode(Encode(bs)) == Some(bs)
  {
    DecodeEncode1(bs[0]);
    assert bs == [bs[0]];
  }

  lemma DecodeEncodeTwo(bs: seq<Byte>)
    requires |bs| == 2
    ensures Decode(Encode(bs)) == Some(bs)
  {
    DecodeEncode2(bs[0], bs[1]);
    assert bs == [bs[0], bs[1]];
  }

  lemma {:induction false} DecodeEncode(bs: seq<Byte>)
    ensures Decode(Encode(bs)) == Some(bs)
  {
    if |bs| == 1 {
      DecodeEncodeOne(bs);
    } else if |bs| == 2 {
      DecodeEncodeTwo(bs);
    } else if |bs| > 2 {
      var tail := bs[3..];
      DecodeEncode(tail);
      DecodeEncodeStep(bs[0], bs[1], bs[2], Encode(tail), tail);
      assert [bs[0], bs[1], bs[2]] + tail == bs;
    }
  }

  lemma PrependChars(g: string, s: string)
    requires AllB64Chars(g) && (s == "" || PaddedBody(s)) && g != ""
    ensures PaddedBody(g + s)
  {
    var t := g + s;
    if s == "" {
      assert t == g;
    } else if AllB64Chars(s) {
    } else if s[|s| - 1] == '=' && AllB64Chars(s[..|s| - 1]) {
      assert t[..|t| - 1] == g + s[..|s| - 1];
    } else {
      assert t[..|t| - 2] == g + s[..|s| - 2];
    }
  }

  lemma {:induction false} EncodePadded(bs: seq<Byte>)
    requires bs != []
    ensures PaddedBody(Encode(bs))
  {
    if |bs| == 1 {
      Group1(bs[0]);
    } else if |bs| == 2 {
      Group2(bs[0], bs[1]);
    } else {
      Group3(bs[0], bs[1], bs[2], false);
      if bs[3..] != [] {
        EncodePadded(bs[3..]);
      }
      PrependChars(Encode3(bs[0], bs[1], bs[2]), Encode(bs[3..]));
    }
  }

  // Main result: the accepted strings are exactly the encodings of non-empty byte strings.
  lemma IsB64Exactly(v: string)
    ensures IsB64(v) <==> exists bs: seq<Byte> :: bs != [] && Encode(bs) == v
  {
    if IsB64(v) {
      var bs := Decode(v).value;
      assert bs != [] && Encode(bs) == v;
    }
    forall bs: seq<Byte> | bs != [] && Encode(bs) == v ensures IsB64(v) {
      EncodedAccepted(bs, v);
    }
  }

  lemma EncodedAccepted(bs: seq<Byte>, v: string)
    requires bs != [] && Encode(bs) == v
    ensures IsB64(v) && Decode(v) == Some(bs) && |v| == B64Chars(|bs|)
  {
    DecodeEncode(bs);
    EncodeLength(bs);
    EncodePadded(bs);
    GroupsOfFour(|bs|);
    assert MatchesB64(v);
  }

  lemma GroupsOfFour(n: nat)
    ensures B64Chars(n) % 4 == 0
  {
  }

  // Hence decoding is injective on accepted strings, and the length is the budgeted one.
  lemma AcceptedIsCanonical(v: string, w: string)
    requires IsB64(v) && IsB64(w) && Decode(v) == Decode(w)
    ensures v == w && |v| == B64Chars(|Decode(v).value|)
  {
    EncodeLength(Decode(v).value);
  }

  // ---- Composite signatures ----

  const SIGNATURE_MIN_BYTES := 3317
  const SIGNATURE_MAX_BYTES := 3413
  const SIGNATURE_MAX_B64_LEN := 4552

  predicate IsValidSignature(v: string) {
    |v| <= SIGNATURE_MAX_B64_LEN && IsB64(v)
    && SIGNATURE_MIN_BYTES <= |Decode(v).value| <= SIGNATURE_MAX_BYTES
  }

  ghost predicate SpellsSignature(bs: seq<Byte>, v: string) {
    3317 <= |bs| <= 3413 && Encode(bs) == v
  }

  lemma SignatureAccepted(bs: seq<Byte>, v: string)
    requires SpellsSignature(bs, v)
    ensures IsValidSignature(v)
  {
    EncodedAccepted(bs, v);
  }

  // The check is on the bytes: the character bound follows and excludes nothing more.
  lemma IsValidSignatureExactly(v: string)
    ensures IsValidSignature(v) <==> exists bs :: SpellsSignature(bs, v)
  {
    if IsValidSignature(v) {
      assert SpellsSignature(Decode(v).value, v);
    }
    forall bs | SpellsSignature(bs, v) ensures IsValidSignature(v) {
      SignatureAccepted(bs, v);
    }
  }

  // ---- The encoding of section 4 of RFC 4648 ----

  function ByteValue(p: Byte): nat { 64 * p.a + 16 * p.b + 4 * p.c + p.d }

  // Character c stands for the number i: capitals, small letters, digits, '+' and '/'.
  predicate Digit(c: char, i: int) {
    || (0 <= i < 26 && c as int == 65 + i)
    || (26 <= i < 52 && c as int == 71 + i)
    || (52 <= i < 62 && c as int == i - 4)
    || (i == 62 && c == '+') || (i == 63 && c == '/')
  }

  function Number(s: Sextet): nat { 16 * s.x + 4 * s.y + s.z }

  lemma SextetDigit(s: Sextet)
    ensures Digit(SextetChar(s), Number(s))
  {
  }

  // Three bytes, read as one number with the first the most significant, are its four
  // digits in base 64.
  lemma EncodesThree(p: Byte, q: Byte, r: Byte, rest: seq<Byte>)
    ensures var g := Encode([p, q, r] + rest);
      && |g| >= 4 && g[4..] == Encode(rest)
      && exists i, j, k, l :: Digit(g[0], i) && Digit(g[1], j) && Digit(g[2], k) && Digit(g[3], l)
           && 262144 * i + 4096 * j + 64 * k + l == 65536 * ByteValue(p) + 256 * ByteValue(q) + ByteValue(r)
  {
    var s, t, u, w := Sextet(p.a, p.b, p.c), Sextet(p.d, q.a, q.b), Sextet(q.c, q.d, r.a), Sextet(r.b, r.c, r.d);
    SextetDigit(s);
    SextetDigit(t);
    SextetDigit(u);
    SextetDigit(w);
    var all := [p, q, r] + rest;
    assert all[0] == p && all[1] == q && all[2] == r && all[3..] == rest;
    assert (Encode3(p, q, r) + Encode(rest))[4..] == Encode(rest);
    var g := Encode(all);
    assert Digit(g[0], Number(s)) && Digit(g[1], Number(t)) && Digit(g[2], Number(u)) && Digit(g[3], Number(w));
    assert 262144 * Number(s) + 4096 * Number(t) + 64 * Number(u) + Number(w)
        == 65536 * ByteValue(p) + 256 * ByteValue(q) + ByteValue(r);
  }

  // Two bytes, shifted by two bits, are three digits and a pad.
  lemma EncodesTwo(p: Byte, q: Byte)
    ensures var g := Encode([p, q]);
      && |g| == 4 && g[3] == '='
      && exists i, j, k :: Digit(g[0], i) && Digit(g[1], j) && Digit(g[2], k)
           && 4096 * i + 64 * j + k == 4 * (256 * ByteValue(p) + ByteValue(q))
  {
    var s, t, u := Sextet(p.a, p.b, p.c), Sextet(p.d, q.a, q.b), Sextet(q.c, q.d, 0);
    SextetDigit(s);
    SextetDigit(t);
    SextetDigit(u);
    var g := Encode([p, q]);
    assert g == Encode2(p, q);
    assert Digit(g[0], Number(s)) && Digit(g[1], Number(t)) && Digit(g[2], Number(u));
    assert 4096 * Number(s) + 64 * Number(t) + Number(u) == 4 * (256 * ByteValue(p) + ByteValue(q));
  }

  // One byte, shifted by four, is two digits and two pads; no bytes are no text.
  lemma EncodesOne(p: Byte)
    ensures var g := Encode([p]);
      && |g| == 4 && g[2] == '=' && g[3] == '='
      && exists i, j :: Digit(g[0], i) && Digit(g[1], j) && 64 * i + j == 16 * ByteValue(p)
    ensures Encode([]) == ""
  {
    var s, t := Sextet(p.a, p.b, p.c), Sextet(p.d, 0, 0);
    SextetDigit(s);
    SextetDigit(t);
    var g := Encode([p]);
    assert g == Encode1(p);
    assert Digit(g[0], Number(s)) && Digit(g[1], Number(t));
    assert 64 * Number(s) + Number(t) == 16 * ByteValue(p);
  }
}
