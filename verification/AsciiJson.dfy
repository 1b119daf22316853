/**
 The writer of JSON string contents for ASCII-only headers: characters outside ASCII become UTF-16 escapes, all other
 bytes are copied. The reader follows section 7 of RFC 8259 and section 2.1 of RFC 2781.
 */
module AsciiJson {
  import opened Domain

  /** A Unicode scalar value: any code point but a surrogate. */
  type Scalar = c: int | 0 <= c <= 0xd7ff || 0xe000 <= c <= 0x10ffff

  // ----- Encodings ---------------------------------------------------------------------

  function Utf8(c: Scalar): (r: seq<int>)
    ensures 1 <= |r| <= 4 && (c < 0x80 ==> r == [c])
  {
    if c < 0x80 then [c]
    else if c < 0x800 then [0xc0 + c / 64, 0x80 + c % 64]
    else if c < 0x10000 then [0xe0 + c / 4096, 0x80 + c / 64 % 64, 0x80 + c % 64]
    else [0xf0 + c / 262144, 0x80 + c / 4096 % 64, 0x80 + c / 64 % 64, 0x80 + c % 64]
  }

  /** The bytes of the first `n` characters. */
  function Bytes(s: seq<Scalar>, n: nat): seq<int>
    requires n <= |s|
  {
    if n == 0 then [] else Bytes(s, n - 1) + Utf8(s[n - 1])
  }

  function Utf16(c: Scalar): (r: seq<int>)
    ensures 1 <= |r| <= 2 && forall i :: 0 <= i < |r| ==> 0 <= r[i] < 0x10000
  {
    if c < 0x10000 then [c] else [0xd800 + (c - 0x10000) / 0x400, 0xdc00 + (c - 0x10000) % 0x400]
  }

  function HexDigit(d: int): (r: int)
    requires 0 <= d < 16
    ensures '0' as int <= r <= 'f' as int
  {
    if d < 10 then '0' as int + d else 'a' as int + d - 10
  }

  /** A backslash, the letter u, and four lower-case hexadecimal digits. */
  function UnitEscape(u: int): seq<int>
    requires 0 <= u < 0x10000
  {
    ['\\' as int, 'u' as int, HexDigit(u / 16 / 16 / 16), HexDigit(u / 16 / 16 % 16),
     HexDigit(u / 16 % 16), HexDigit(u % 16)]
  }

  /** The escapes of the first `n` code units. */
  function UnitEscapes(units: seq<int>, n: nat): seq<int>
    requires n <= |units| && forall i :: 0 <= i < |units| ==> 0 <= units[i] < 0x10000
  {
    if n == 0 then [] else UnitEscapes(units, n - 1) + UnitEscape(units[n - 1])
  }

  /** What stands for one character. */
  function Escape(c: Scalar): seq<int> {
    if c < 0x80 then [c] else UnitEscapes(Utf16(c), |Utf16(c)|)
  }

  /** What stands for the first `n` characters. */
  function Escapes(s: seq<Scalar>, n: nat): seq<int>
    requires n <= |s|
  {
    if n == 0 then [] else Escapes(s, n - 1) + Escape(s[n - 1])
  }

  function EscapeAll(s: seq<Scalar>): seq<int> {
    Escapes(s, |s|)
  }

  predicate IsAscii(text: seq<int>) {
    forall i :: 0 <= i < |text| ==> 0 <= text[i] < 0x80
  }

  // ----- The writer --------------------------------------------------------------------

  lemma {:induction false} BytesPrefix(s: seq<Scalar>, n: nat)
    requires n <= |s|
    ensures Bytes(s, n) <= Bytes(s, |s|)
    decreases |s| - n
  {
    if n < |s| { BytesPrefix(s, n + 1); }
  }

  lemma SliceOfPrefix(a: seq<int>, b: seq<int>, whole: seq<int>)
    requires a + b <= whole
    ensures |a| + |b| <= |whole| && whole[|a|..|a| + |b|] == b
  {
    assert whole[..|a| + |b|] == a + b;
  }

  /** The next character occupies the bytes after those of the characters before it. */
  lemma NextCharacter(s: seq<Scalar>, n: nat)
    requires n < |s|
    ensures var index := |Bytes(s, n)|; var next := |Bytes(s, n + 1)|;
            next == index + |Utf8(s[n])| <= |Bytes(s, |s|)| && Bytes(s, |s|)[index..next] == Utf8(s[n])
  {
    BytesPrefix(s, n + 1);
    SliceOfPrefix(Bytes(s, n), Utf8(s[n]), Bytes(s, |s|));
  }

  /** What is written, and the bytes from `start` to `index` that are still to be copied, make up `text`. */
  ghost predicate Pending(bytes: seq<int>, start: nat, index: nat, out: seq<int>, text: seq<int>) {
    start <= index <= |bytes| && out + bytes[start..index] == text
  }

  lemma PendingGrows(bytes: seq<int>, start: nat, index: nat, next: nat, out: seq<int>, text: seq<int>)
    requires Pending(bytes, start, index, out, text) && index <= next <= |bytes|
    ensures Pending(bytes, start, next, out, text + bytes[index..next])
  {
    var pending, more := bytes[start..index], bytes[index..next];
    assert bytes[start..next] == pending + more;
    Associative(out, pending, more);
  }

  lemma Associative(a: seq<int>, b: seq<int>, c: seq<int>)
    ensures (a + b) + c == a + (b + c)
  {
  }

  lemma NothingPending(bytes: seq<int>, next: nat, out: seq<int>)
    requires next <= |bytes|
    ensures Pending(bytes, next, next, out, out)
  {
    assert bytes[next..next] == [];
    assert out + [] == out;
  }

  /** The first `n` characters end at byte `index`, and their escapes are written or pending. */
  ghost predicate Progress(s: seq<Scalar>, n: nat, start: nat, index: nat, out: seq<int>)
    requires n <= |s|
  {
    index == |Bytes(s, n)| && Pending(Bytes(s, |s|), start, index, out, Escapes(s, n))
  }

  lemma AsciiStep(s: seq<Scalar>, n: nat)
    requires n < |s| && s[n] < 0x80
    ensures Escapes(s, n + 1) == Escapes(s, n) + Utf8(s[n])
  {
  }

  /** An ASCII character stays pending. */
  method PassCharacter(s: seq<Scalar>, n: nat, start: nat, index: nat, out: seq<int>) returns (next: nat)
    requires n < |s| && s[n] < 0x80 && Progress(s, n, start, index, out)
    ensures Progress(s, n + 1, start, next, out)
  {
    NextCharacter(s, n);
    AsciiStep(s, n);
    next := index + |Utf8(s[n])|;
    PendingGrows(Bytes(s, |s|), start, index, next, out, Escapes(s, n));
  }

  /** Copies what is pending. */
  method CopyPending(bytes: seq<int>, start: nat, index: nat, out: seq<int>, ghost text: seq<int>) returns (r: seq<int>)
    requires Pending(bytes, start, index, out, text)
    ensures r == text
  {
    r := out;
    if start < index {
      r := r + bytes[start..index];
    } else {
      assert bytes[start..index] == [];
    }
  }

  method WriteUnits(out: seq<int>, c: Scalar) returns (r: seq<int>)
    requires c >= 0x80
    ensures r == out + Escape(c)
  {
    var units := Utf16(c);
    r := out;
    for j := 0 to |units|
      invariant r == out + UnitEscapes(units, j)
    {
      Associative(out, UnitEscapes(units, j), UnitEscape(units[j]));
      r := r + UnitEscape(units[j]);
    }
  }

  /** Any other character is escaped, after what is pending was copied. */
  method EscapeCharacter(s: seq<Scalar>, bytes: seq<int>, n: nat, start: nat, index: nat, out: seq<int>)
    returns (r: seq<int>, next: nat)
    requires n < |s| && s[n] >= 0x80 && bytes == Bytes(s, |s|) && Progress(s, n, start, index, out)
    ensures Progress(s, n + 1, next, next, r)
  {
    NextCharacter(s, n);
    r := CopyPending(bytes, start, index, out, Escapes(s, n));
    r := WriteUnits(r, s[n]);
    next := index + |Utf8(s[n])|;
    NothingPending(bytes, next, r);
  }

  lemma NothingYet(s: seq<Scalar>)
    ensures Progress(s, 0, 0, 0, [])
  {
    NothingPending(Bytes(s, |s|), 0, []);
  }

  /** Copying runs of ASCII bytes and escaping between them writes the escape of every character, in order, and nothing
      but ASCII. */
  method WriteStringFragment(fragment: seq<Scalar>) returns (out: seq<int>)
    ensures out == EscapeAll(fragment) && IsAscii(out)
  {
    var bytes := Bytes(fragment, |fragment|);
    var start, index: nat := 0, 0;
    out := [];
    NothingYet(fragment);
    for n := 0 to |fragment|
      invariant Progress(fragment, n, start, index, out)
    {
      if fragment[n] < 0x80 {
        index := PassCharacter(fragment, n, start, index, out);
      } else {
        out, index := EscapeCharacter(fragment, bytes, n, start, index, out);
        start := index;
      }
    }
    out := CopyPending(bytes, start, |bytes|, out, EscapeAll(fragment));
    EscapesAscii(fragment, |fragment|);
  }

  lemma {:induction false} EscapesAscii(s: seq<Scalar>, n: nat)
    requires n <= |s|
    ensures IsAscii(Escapes(s, n))
  {
    if n > 0 {
      EscapesAscii(s, n - 1);
      EscapeAscii(s[n - 1]);
    }
  }

  lemma UnitEscapeAscii(u: int)
    requires 0 <= u < 0x10000
    ensures IsAscii(UnitEscape(u))
  {
  }

  lemma EscapeAscii(c: Scalar)
    ensures IsAscii(Escape(c))
  {
    EscapeShape(c);
    if c >= 0x10000 {
      UnitEscapeAscii(Utf16(c)[0]);
      UnitEscapeAscii(Utf16(c)[1]);
    } else if c >= 0x80 {
      UnitEscapeAscii(c);
    }
  }

  lemma EscapeShape(c: Scalar)
    ensures Escape(c) == if c < 0x80 then [c]
                         else if c < 0x10000 then UnitEscape(c)
                         else UnitEscape(Utf16(c)[0]) + UnitEscape(Utf16(c)[1])
  {
    var units := Utf16(c);
    assert [] + UnitEscape(units[0]) == UnitEscape(units[0]);
    assert UnitEscapes(units, 1) == UnitEscapes(units, 0) + UnitEscape(units[0]);
    if c >= 0x10000 { assert UnitEscapes(units, 2) == UnitEscapes(units, 1) + UnitEscape(units[1]); }
  }

  // ----- The reader --------------------------------------------------------------------

  function HexValue(b: int): (r: Option<int>)
    ensures r.Some? ==> 0 <= r.value < 16
  {
    if '0' as int <= b <= '9' as int then Some(b - '0' as int)
    else if 'a' as int <= b <= 'f' as int then Some(b - 'a' as int + 10)
    else if 'A' as int <= b <= 'F' as int then Some(b - 'A' as int + 10)
    else None
  }

  /** The code unit of an escape at the front of the text. */
  function ReadUnit(text: seq<int>): (r: Option<int>)
    ensures r.Some? ==> |text| >= 6 && 0 <= r.value < 0x10000
  {
    if |text| < 6 || text[0] != '\\' as int || text[1] != 'u' as int then None
    else
      var a, b, c, d := HexValue(text[2]), HexValue(text[3]), HexValue(text[4]), HexValue(text[5]);
      if a.None? || b.None? || c.None? || d.None? then None
      else Some(((a.value * 16 + b.value) * 16 + c.value) * 16 + d.value)
  }

  /** The two-character escapes. */
  function ReadShort(b: int): Option<Scalar> {
    if b == '"' as int || b == '\\' as int || b == '/' as int then Some(b)
    else if b == 'b' as int then Some(8)
    else if b == 'f' as int then Some(12)
    else if b == 'n' as int then Some(10)
    else if b == 'r' as int then Some(13)
    else if b == 't' as int then Some(9)
    else None
  }

  /** The first character of an ASCII text and the length it takes: none if the text is malformed, or has half of a
      surrogate pair. */
  function ReadCharacter(text: seq<int>): (r: Option<(Scalar, nat)>)
    requires text != []
    ensures r.Some? ==> 1 <= r.value.1 <= |text|
  {
    if text[0] != '\\' as int then
      if 0x20 <= text[0] < 0x80 && text[0] != '"' as int then Some((text[0], 1)) else None
    else
      var unit := ReadUnit(text);
      if unit.None? then
        if |text| < 2 then None
        else
          var short := ReadShort(text[1]);
          if short.None? then None else Some((short.value, 2))
      else if unit.value < 0xd800 || unit.value >= 0xe000 then Some((unit.value, 6))
      else if unit.value >= 0xdc00 then None
      else
        var low := ReadUnit(text[6..]);
        if low.None? || !(0xdc00 <= low.value < 0xe000) then None
        else Some((0x10000 + (unit.value - 0xd800) * 0x400 + (low.value - 0xdc00), 12))
  }

  function Decode(text: seq<int>): Option<seq<Scalar>> {
    if text == [] then Some([])
    else
      var first := ReadCharacter(text);
      if first.None? then None
      else
        var rest := Decode(text[first.value.1..]);
        if rest.None? then None else Some([first.value.0] + rest.value)
  }

  // ----- The round trip ----------------------------------------------------------------

  /** JSON lets the character stand for itself. */
  predicate NeedsNoEscape(c: Scalar) {
    c >= 0x20 && c != '"' as int && c != '\\' as int
  }

  lemma HexRead(d: int)
    requires 0 <= d < 16
    ensures HexValue(HexDigit(d)) == Some(d)
  {
  }

  lemma ReadsDigits(a: int, b: int, c: int, d: int, text: seq<int>)
    requires 0 <= a < 16 && 0 <= b < 16 && 0 <= c < 16 && 0 <= d < 16
    requires |text| >= 6 && text[0] == '\\' as int && text[1] == 'u' as int
    requires text[2] == HexDigit(a) && text[3] == HexDigit(b) && text[4] == HexDigit(c) && text[5] == HexDigit(d)
    ensures ReadUnit(text) == Some(((a * 16 + b) * 16 + c) * 16 + d)
  {
    HexRead(a);
    HexRead(b);
    HexRead(c);
    HexRead(d);
  }

  lemma ReadsUnit(u: int, rest: seq<int>)
    requires 0 <= u < 0x10000
    ensures ReadUnit(UnitEscape(u) + rest) == Some(u)
  {
    var c := u / 16;
    var b := c / 16;
    ReadsDigits(b / 16, b % 16, c % 16, u % 16, UnitEscape(u) + rest);
  }

  lemma SplitPair(c: Scalar)
    requires c >= 0x10000
    ensures var units := Utf16(c);
            && |units| == 2 && 0xd800 <= units[0] < 0xdc00 && 0xdc00 <= units[1] < 0xe000
            && c == 0x10000 + (units[0] - 0xd800) * 0x400 + (units[1] - 0xdc00)
  {
  }

  lemma PairRead(text: seq<int>, high: int, low: int, c: Scalar)
    requires text != [] && text[0] == '\\' as int && ReadUnit(text) == Some(high) && ReadUnit(text[6..]) == Some(low)
    requires 0xd800 <= high < 0xdc00 && 0xdc00 <= low < 0xe000
    requires c == 0x10000 + (high - 0xd800) * 0x400 + (low - 0xdc00)
    ensures ReadCharacter(text) == Some((c, 12))
  {
  }

  lemma ReadsPair(c: Scalar, rest: seq<int>)
    requires c >= 0x10000
    ensures |Escape(c)| == 12 && ReadCharacter(Escape(c) + rest) == Some((c, 12))
  {
    var high, low := Utf16(c)[0], Utf16(c)[1];
    var tail := UnitEscape(low) + rest;
    EscapeShape(c);
    SplitPair(c);
    Associative(UnitEscape(high), UnitEscape(low), rest);
    assert (UnitEscape(high) + tail)[6..] == tail;
    ReadsUnit(high, tail);
    ReadsUnit(low, rest);
    PairRead(Escape(c) + rest, high, low, c);
  }

  lemma ReadsSingle(c: Scalar, rest: seq<int>)
    requires 0x80 <= c < 0x10000
    ensures |Escape(c)| == 6 && ReadCharacter(Escape(c) + rest) == Some((c, 6))
  {
    EscapeShape(c);
    ReadsUnit(c, rest);
  }

  lemma ReadsAscii(c: Scalar, rest: seq<int>)
    requires NeedsNoEscape(c) && c < 0x80
    ensures |Escape(c)| == 1 && ReadCharacter(Escape(c) + rest) == Some((c, 1))
  {
  }

  lemma ReadsCharacter(c: Scalar, rest: seq<int>)
    requires NeedsNoEscape(c)
    ensures |Escape(c)| >= 1 && ReadCharacter(Escape(c) + rest) == Some((c, |Escape(c)|))
  {
    if c >= 0x10000 { ReadsPair(c, rest); }
    else if c >= 0x80 { ReadsSingle(c, rest); }
    else { ReadsAscii(c, rest); }
  }

  lemma {:induction false} EscapesFront(s: seq<Scalar>, n: nat)
    requires n < |s|
    ensures Escapes(s, n + 1) == Escape(s[0]) + Escapes(s[1..], n)
  {
    if n == 0 {
      assert Escapes(s, 1) == [] + Escape(s[0]) && Escapes(s[1..], 0) == [];
    } else {
      EscapesFront(s, n - 1);
      Associative(Escape(s[0]), Escapes(s[1..], n - 1), Escape(s[n]));
    }
  }

  /** Whatever fragment JSON may write unescaped, reading back what was written for it gives the fragment. */
  lemma {:induction false} RoundTrip(s: seq<Scalar>)
    requires forall i :: 0 <= i < |s| ==> NeedsNoEscape(s[i])
    ensures Decode(EscapeAll(s)) == Some(s)
  {
    if s != [] {
      RoundTrip(s[1..]);
      EscapesFront(s, |s| - 1);
      var rest := EscapeAll(s[1..]);
      ReadsCharacter(s[0], rest);
      assert (Escape(s[0]) + rest)[|Escape(s[0])|..] == rest;
      assert [s[0]] + s[1..] == s;
    }
  }
}
