/**
  * String helpers shared by the tokenizer and the table renderer.
  *
  * Rust strings are UTF-8 byte buffers and `str::len` counts bytes, not
  * characters; `ByteLen` gives that count for a Dafny string (a sequence of
  * Unicode scalar values).
  */
module Text {

  /** Rust's `char::is_whitespace`: the Unicode White_Space property. */
  predicate IsWhitespace(c: char)
  {
    || ('\t' <= c <= '\r')
    || c == ' '
    || c == '\U{0085}'
    || c == '\U{00A0}'
    || c == '\U{1680}'
    || ('\U{2000}' <= c <= '\U{200A}')
    || c == '\U{2028}'
    || c == '\U{2029}'
    || c == '\U{202F}'
    || c == '\U{205F}'
    || c == '\U{3000}'
  }

  predicate HasWhitespace(s: string)
  {
    exists i :: 0 <= i < |s| && IsWhitespace(s[i])
  }

  predicate IsAscii(s: string)
  {
    forall i :: 0 <= i < |s| ==> s[i] as int < 0x80
  }

  /** Number of bytes in the UTF-8 encoding of one character. */
  function Utf8Width(c: char): (n: nat)
    ensures 1 <= n <= 4
    ensures n == 1 <==> c as int < 0x80
  {
    if c as int < 0x80 then 1
    else if c as int < 0x800 then 2
    else if c as int < 0x10000 then 3
    else 4
  }

  /** Rust's `str::len`: the length of the UTF-8 encoding. */
  function ByteLen(s: string): nat
  {
    if s == [] then 0 else ByteLen(s[..|s| - 1]) + Utf8Width(s[|s| - 1])
  }

  lemma {:induction false} ByteLenAppend(a: string, b: string)
    ensures ByteLen(a + b) == ByteLen(a) + ByteLen(b)
    decreases |b|
  {
    if b != [] {
      var b' := b[..|b| - 1];
      assert (a + b)[..|a + b| - 1] == a + b';
      ByteLenAppend(a, b');
    } else {
      assert a + b == a;
    }
  }

  /** Every character takes at least one byte; ASCII characters exactly one. */
  lemma {:induction false} ByteLenBounds(s: string)
    ensures |s| <= ByteLen(s)
    ensures ByteLen(s) == |s| <==> IsAscii(s)
    decreases |s|
  {
    if s != [] {
      var s' := s[..|s| - 1];
      ByteLenBounds(s');
      if IsAscii(s) {
        assert IsAscii(s');
      } else if IsAscii(s') {
        assert !(s[|s| - 1] as int < 0x80);
      }
    }
  }

  /** Rust's `str::repeat` on a one-character string. */
  function Repeat(c: char, n: nat): (r: string)
    ensures |r| == n
  {
    seq(n, _ => c)
  }

  lemma RepeatChars(c: char, n: nat)
    ensures forall i :: 0 <= i < n ==> Repeat(c, n)[i] == c
  {
  }

  lemma RepeatAsciiByteLen(c: char, n: nat)
    requires c as int < 0x80
    ensures ByteLen(Repeat(c, n)) == n
  {
    ByteLenBounds(Repeat(c, n));
  }

  /** `value` padded on the right with spaces to `width` bytes. */
  function Pad(value: string, width: nat): (r: string)
    requires ByteLen(value) <= width
    ensures ByteLen(r) == width
    ensures |value| <= |r| && r[..|value|] == value
  {
    var spaces := Repeat(' ', width - ByteLen(value));
    RepeatAsciiByteLen(' ', width - ByteLen(value));
    ByteLenAppend(value, spaces);
    value + spaces
  }

  /** What follows the value in a padded cell is spaces. */
  lemma PadSpaces(value: string, width: nat)
    requires ByteLen(value) <= width
    ensures forall i :: |value| <= i < |Pad(value, width)| ==> Pad(value, width)[i] == ' '
  {
    RepeatChars(' ', width - ByteLen(value));
  }

  /** `cell` is `value` followed by spaces, `width` bytes in all. */
  predicate Padded(cell: string, value: string, width: nat)
  {
    && ByteLen(cell) == width
    && |value| <= |cell| && cell[..|value|] == value
    && forall i :: |value| <= i < |cell| ==> cell[i] == ' '
  }

  lemma PadIsPadded(value: string, width: nat)
    requires ByteLen(value) <= width
    ensures Padded(Pad(value, width), value, width)
  {
    PadSpaces(value, width);
  }

  lemma BlankIsPadded(width: nat)
    ensures Padded(Repeat(' ', width), "", width)
  {
    RepeatAsciiByteLen(' ', width);
    RepeatChars(' ', width);
  }

  function Max(a: nat, b: nat): nat
  {
    if a < b then b else a
  }
}
