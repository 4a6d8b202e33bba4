/** `encodeURIComponent` (ECMAScript section 19.2.6.5): every character
    outside the unreserved set `A-Z a-z 0-9 - _ . ! ~ * ' ( )` is written as
    the `%XX` escapes of its UTF-8 bytes, with upper-case hex digits. A Dafny
    `char` is a Unicode scalar value, so the lone-surrogate `URIError` cannot
    arise. The decoder below is the inverse used to prove the encoding
    injective. */
module UriComponent {
  import opened Wrappers

  predicate Unreserved(c: char) {
    || ('A' <= c <= 'Z') || ('a' <= c <= 'z') || ('0' <= c <= '9')
    || c == '-' || c == '_' || c == '.' || c == '!' || c == '~'
    || c == '*' || c == '\'' || c == '(' || c == ')'
  }

  function HexDigit(d: int): (c: char)
    requires 0 <= d < 16
  {
    if d < 10 then ('0' as int + d) as char else ('A' as int + d - 10) as char
  }

  predicate IsHexDigit(c: char) {
    ('0' <= c <= '9') || ('A' <= c <= 'F') || ('a' <= c <= 'f')
  }

  function HexValue(c: char): (r: Option<int>)
    ensures r.Some? <==> IsHexDigit(c)
    ensures r.Some? ==> 0 <= r.value < 16
  {
    if '0' <= c <= '9' then Some(c as int - '0' as int)
    else if 'A' <= c <= 'F' then Some(c as int - 'A' as int + 10)
    else if 'a' <= c <= 'f' then Some(c as int - 'a' as int + 10)
    else None
  }

  lemma HexDigitValue(d: int)
    requires 0 <= d < 16
    ensures IsHexDigit(HexDigit(d)) && HexValue(HexDigit(d)) == Some(d)
  {
  }

  /** The UTF-8 bytes of a scalar value. */
  function Utf8(c: char): (bytes: seq<int>)
    ensures 1 <= |bytes| <= 4
    ensures forall i :: 0 <= i < |bytes| ==> 0 <= bytes[i] < 256
  {
    var cp := c as int;
    if cp < 0x80 then [cp]
    else if cp < 0x800 then [0xC0 + cp / 64, 0x80 + cp % 64]
    else if cp < 0x1_0000 then [0xE0 + cp / 64 / 64, 0x80 + cp / 64 % 64, 0x80 + cp % 64]
    else [0xF0 + cp / 64 / 64 / 64, 0x80 + cp / 64 / 64 % 64, 0x80 + cp / 64 % 64, 0x80 + cp % 64]
  }

  /** `%XX` for one byte. */
  function Escape(b: int): (r: string)
    requires 0 <= b < 256
    ensures |r| == 3 && r[0] == '%'
  {
    ['%', HexDigit(b / 16), HexDigit(b % 16)]
  }

  function Escapes(bytes: seq<int>): (r: string)
    requires forall i :: 0 <= i < |bytes| ==> 0 <= bytes[i] < 256
    ensures |r| == 3 * |bytes|
    decreases |bytes|
  {
    if bytes == [] then [] else Escape(bytes[0]) + Escapes(bytes[1..])
  }

  function EncodeChar(c: char): string {
    if Unreserved(c) then [c] else Escapes(Utf8(c))
  }

  /** `encodeURIComponent(s)`. */
  function Encode(s: string): string
    decreases |s|
  {
    if s == [] then [] else EncodeChar(s[0]) + Encode(s[1..])
  }

  // ---------------------------------------------------------------------
  // Decoding
  // ---------------------------------------------------------------------

  /** The byte escaped at position `3 * i`. */
  function ByteAt(s: string, i: nat): (r: Option<int>)
    ensures r.Some? ==> 0 <= r.value < 256 && 3 * i + 3 <= |s|
  {
    if 3 * i + 3 <= |s| && s[3 * i] == '%' then
      var hi :- HexValue(s[3 * i + 1]);
      var lo :- HexValue(s[3 * i + 2]);
      Some(hi * 16 + lo)
    else None
  }

  /** The first `n` escaped bytes. */
  function BytesAt(s: string, n: nat): (r: Option<seq<int>>)
    ensures r.Some? ==> |r.value| == n && 3 * n <= |s|
    ensures r.Some? ==> forall i :: 0 <= i < n ==> 0 <= r.value[i] < 256
  {
    if n == 0 then Some([])
    else
      var prefix :- BytesAt(s, n - 1);
      var b :- ByteAt(s, n - 1);
      Some(prefix + [b])
  }

  /** How many bytes a UTF-8 sequence starting with `b` has; 0 if `b` cannot
      start one. */
  function Utf8Length(b: int): nat {
    if 0 <= b < 0x80 then 1
    else if 0xC0 <= b < 0xE0 then 2
    else if 0xE0 <= b < 0xF0 then 3
    else if 0xF0 <= b < 0xF8 then 4
    else 0
  }

  /** The scalar value of a UTF-8 sequence whose length matches its lead
      byte and whose other bytes are continuation bytes. */
  function Utf8Decode(bytes: seq<int>): Option<char> {
    if |bytes| == 0 || Utf8Length(bytes[0]) != |bytes|
       || exists i :: 1 <= i < |bytes| && !(0x80 <= bytes[i] < 0xC0) then None
    else
      var cp :=
        if |bytes| == 1 then bytes[0]
        else if |bytes| == 2 then (bytes[0] - 0xC0) * 64 + (bytes[1] - 0x80)
        else if |bytes| == 3 then ((bytes[0] - 0xE0) * 64 + (bytes[1] - 0x80)) * 64 + (bytes[2] - 0x80)
        else (((bytes[0] - 0xF0) * 64 + (bytes[1] - 0x80)) * 64 + (bytes[2] - 0x80)) * 64 + (bytes[3] - 0x80);
      if 0 <= cp < 0xD800 || 0xE000 <= cp < 0x11_0000 then Some(cp as char) else None
  }

  /** The inverse of `Encode`: `None` on text `Encode` cannot produce. */
  function Decode(s: string): Option<string>
    decreases |s|
  {
    if s == [] then Some([])
    else if s[0] != '%' then
      var rest :- Decode(s[1..]);
      Some([s[0]] + rest)
    else
      var b0 :- ByteAt(s, 0);
      var n := Utf8Length(b0);
      if n == 0 then None
      else
        var bytes :- BytesAt(s, n);
        var c :- Utf8Decode(bytes);
        var rest :- Decode(s[3 * n..]);
        Some([c] + rest)
  }

  // ---------------------------------------------------------------------
  // Properties
  // ---------------------------------------------------------------------

  lemma Utf8RoundTrip(c: char)
    ensures Utf8Length(Utf8(c)[0]) == |Utf8(c)|
    ensures Utf8Decode(Utf8(c)) == Some(c)
  {
    var cp := c as int;
    var bytes := Utf8(c);
    if cp < 0x80 {
    } else if cp < 0x800 {
      assert cp == cp / 64 * 64 + cp % 64;
    } else if cp < 0x1_0000 {
      assert cp / 64 == cp / 64 / 64 * 64 + cp / 64 % 64;
      assert cp == cp / 64 * 64 + cp % 64;
    } else {
      assert cp / 64 / 64 == cp / 64 / 64 / 64 * 64 + cp / 64 / 64 % 64;
      assert cp / 64 == cp / 64 / 64 * 64 + cp / 64 % 64;
      assert cp == cp / 64 * 64 + cp % 64;
    }
  }

  /** Reading past a three-character prefix. */
  lemma ByteAtShift(e: string, t: string, i: nat)
    requires |e| == 3
    ensures ByteAt(e + t, i + 1) == ByteAt(t, i)
  {
    var s := e + t;
    if 3 * i + 3 <= |t| {
      assert s[3 * (i + 1)] == t[3 * i];
      assert s[3 * (i + 1) + 1] == t[3 * i + 1];
      assert s[3 * (i + 1) + 2] == t[3 * i + 2];
    }
  }

  /** The escapes of `bytes` can be read back one byte at a time, whatever
      follows them. */
  lemma {:induction false} EscapesRead(bytes: seq<int>, rest: string, i: nat)
    requires forall j :: 0 <= j < |bytes| ==> 0 <= bytes[j] < 256
    requires i < |bytes|
    ensures ByteAt(Escapes(bytes) + rest, i) == Some(bytes[i])
    decreases |bytes|
  {
    var t := Escapes(bytes[1..]) + rest;
    assert Escapes(bytes) + rest == Escape(bytes[0]) + t;
    if i == 0 {
      HexDigitValue(bytes[0] / 16);
      HexDigitValue(bytes[0] % 16);
    } else {
      EscapesRead(bytes[1..], rest, i - 1);
      ByteAtShift(Escape(bytes[0]), t, i - 1);
    }
  }

  lemma {:induction false} EscapesReadAll(bytes: seq<int>, rest: string, n: nat)
    requires forall j :: 0 <= j < |bytes| ==> 0 <= bytes[j] < 256
    requires n <= |bytes|
    ensures BytesAt(Escapes(bytes) + rest, n) == Some(bytes[..n])
  {
    if n > 0 {
      EscapesReadAll(bytes, rest, n - 1);
      EscapesRead(bytes, rest, n - 1);
      assert bytes[..n - 1] + [bytes[n - 1]] == bytes[..n];
    }
  }

  /** Decoding one encoded character and then the rest. */
  lemma DecodeChar(c: char, rest: string)
    ensures Decode(EncodeChar(c) + rest) == (
      match Decode(rest)
      case Some(t) => Some([c] + t)
      case None => None)
  {
    var s := EncodeChar(c) + rest;
    if Unreserved(c) {
      assert s[0] == c && s[1..] == rest;
    } else {
      var bytes := Utf8(c);
      Utf8RoundTrip(c);
      EscapesRead(bytes, rest, 0);
      EscapesReadAll(bytes, rest, |bytes|);
      assert bytes[..|bytes|] == bytes;
      assert s[0] == '%';
      assert s[3 * |bytes|..] == rest;
    }
  }

  /** `Decode` inverts `Encode`. */
  lemma {:induction false} DecodeEncode(s: string)
    ensures Decode(Encode(s)) == Some(s)
    decreases |s|
  {
    if s != [] {
      DecodeEncode(s[1..]);
      DecodeChar(s[0], Encode(s[1..]));
      assert [s[0]] + s[1..] == s;
    }
  }

  /** Distinct strings have distinct encodings. */
  lemma EncodeInjective(s: string, t: string)
    requires Encode(s) == Encode(t)
    ensures s == t
  {
    DecodeEncode(s);
    DecodeEncode(t);
  }

  lemma {:induction false} EscapesCharacters(bytes: seq<int>, x: char)
    requires forall j :: 0 <= j < |bytes| ==> 0 <= bytes[j] < 256
    requires x in Escapes(bytes)
    ensures x == '%' || IsHexDigit(x)
    decreases |bytes|
  {
    if bytes != [] {
      if x in Escape(bytes[0]) {
        HexDigitValue(bytes[0] / 16);
        HexDigitValue(bytes[0] % 16);
      } else {
        EscapesCharacters(bytes[1..], x);
      }
    }
  }

  /** An encoded string holds only unreserved characters, `%` and hex
      digits; in particular none of the delimiters `/ ? & =`. */
  lemma {:induction false} EncodeAlphabet(s: string, x: char)
    requires x in Encode(s)
    ensures Unreserved(x) || x == '%' || IsHexDigit(x)
    ensures x != '/' && x != '?' && x != '&' && x != '='
    decreases |s|
  {
    if s != [] {
      if x in EncodeChar(s[0]) {
        if !Unreserved(s[0]) {
          EscapesCharacters(Utf8(s[0]), x);
        }
      } else {
        EncodeAlphabet(s[1..], x);
      }
    }
  }
}
