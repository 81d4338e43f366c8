/** UTF-8: the bytes in which a text reaches the lexer, each byte a character below 256. */
module Utf8 {

  predicate Ascii(s: string) { forall i | 0 <= i < |s| :: s[i] < 128 as char }

  /** The lowest six bits of `n`, as a continuation byte */
  function Continuation(n: nat): (b: char)
    ensures 128 as char <= b < 192 as char
  {
    (0x80 + n % 0x40) as char
  }

  function EncodeChar(c: char): (bytes: string)
    ensures forall i | 0 <= i < |bytes| :: bytes[i] < 256 as char
    ensures c < 128 as char ==> bytes == [c]
    ensures c >= 128 as char ==> |bytes| > 1 && forall i | 0 <= i < |bytes| :: bytes[i] >= 128 as char
  {
    var n := c as int;
    if n < 0x80 then [c]
    else if n < 0x800 then [(0xC0 + n / 0x40) as char, Continuation(n)]
    else if n < 0x1_0000 then [(0xE0 + n / 0x1000) as char, Continuation(n / 0x40), Continuation(n)]
    else [(0xF0 + n / 0x4_0000) as char, Continuation(n / 0x1000), Continuation(n / 0x40), Continuation(n)]
  }

  function Encode(text: string): string {
    if text == "" then "" else EncodeChar(text[0]) + Encode(text[1..])
  }

  lemma {:induction false} EncodeConcat(a: string, b: string)
    ensures Encode(a + b) == Encode(a) + Encode(b)
  {
    if a == "" {
      assert a + b == b;
    } else {
      assert (a + b)[1..] == a[1..] + b;
      EncodeConcat(a[1..], b);
    }
  }

  lemma {:induction false} EncodeGrows(s: string)
    ensures |Encode(s)| >= |s|
    ensures Ascii(s) ==> Encode(s) == s
    ensures !Ascii(s) ==> |Encode(s)| > |s|
  {
    if s != "" {
      EncodeGrows(s[1..]);
      assert s == [s[0]] + s[1..];
    }
  }

  /** Encoding leaves exactly the ASCII texts as they are. */
  lemma EncodeFixesAscii(s: string)
    ensures Encode(s) == s <==> Ascii(s)
  {
    EncodeGrows(s);
  }

  lemma AsciiThen(a: string, rest: string)
    requires Ascii(a)
    ensures Encode(a + rest) == a + Encode(rest)
  {
    EncodeConcat(a, rest);
    EncodeFixesAscii(a);
  }

  /** An ASCII character is in the encoding exactly if it is in the text. */
  lemma {:induction false} EncodeKeepsAscii(s: string, c: char)
    requires c < 128 as char
    ensures c in Encode(s) <==> c in s
  {
    if s != "" {
      EncodeKeepsAscii(s[1..], c);
      assert c in EncodeChar(s[0]) <==> c == s[0];
    }
  }
}
