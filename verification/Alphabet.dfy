/** The alphabet of src/json.rl, byte by byte. */
module Alphabet {
  import opened Lexical

  /** `[0-9]`, `xdigit`, and `uni_ascii_area` without its escapes. */
  lemma ListedBytes(c: char)
    ensures Digit(c) <==> c in "0123456789"
    ensures HexDigit(c) <==> c in "0123456789" || c in "abcdef" || c in "ABCDEF"
    ensures Plain(c) <==> c in " !" || c in "#$%&'()*+,-./" || c in "0123456789" || c in ":;<=>?@"
                          || c in "ABCDEFGHIJKLM" || c in "NOPQRSTUVWXYZ" || c in "[" || c in "]^_`"
                          || c in "abcdefghijklm" || c in "nopqrstuvwxyz" || c in "{|}~"
  {
    Among(c, 0x20, " !");
    Among(c, 0x23, "#$%&'()*+,-./");
    Among(c, 0x30, "0123456789");
    Among(c, 0x3a, ":;<=>?@");
    Among(c, 0x41, "ABCDEFGHIJKLM");
    Among(c, 0x4e, "NOPQRSTUVWXYZ");
    Among(c, 0x5b, "[");
    Among(c, 0x5d, "]^_`");
    Among(c, 0x61, "abcdefghijklm");
    Among(c, 0x6e, "nopqrstuvwxyz");
    Among(c, 0x7b, "{|}~");
    Among(c, 0x41, "ABCDEF");
    Among(c, 0x61, "abcdef");
  }

  /** A string of bytes that follow one another. */
  lemma Among(c: char, first: int, t: string)
    requires 0 <= first && forall i :: 0 <= i < |t| ==> t[i] as int == first + i
    ensures c in t <==> first <= c as int < first + |t|
  {
    if first <= c as int < first + |t| { assert t[c as int - first] == c; }
  }

  predicate Hexadecimal(c: char) { c in "0123456789" || c in "abcdef" || c in "ABCDEF" }

  /** The tokens of a string: one printable byte, an escape, or a lead byte with as many bytes as it announces. */
  lemma TokenExactly(t: string)
    ensures IsToken(t) <==>
      || (|t| == 1 && 0x20 <= t[0] as int <= 0x7e && t[0] as int != 0x22 && t[0] as int != 0x5c)
      || t in ["\\\"", "\\b", "\\n", "\\r", "\\\\", "\\/", "\\f", "\\t"]
      || (|t| == 6 && t[..2] == "\\u" && forall i :: 2 <= i < 6 ==> Hexadecimal(t[i]))
      || (|t| == 2 && 0xc0 <= t[0] as int < 0xe0 && Tail(t))
      || (|t| == 3 && 0xe0 <= t[0] as int < 0xf0 && Tail(t))
      || (|t| == 4 && 0xf0 <= t[0] as int < 0xf8 && Tail(t))
  {
    OneByte(t);
    Escape(t);
    CodePoint(t);
    Group(t);
    hide Plain, HexDigit, Follow, Continuation, Tail;
  }

  predicate Tail(t: string) { forall i :: 1 <= i < |t| ==> 0x80 <= t[i] as int < 0xc0 }

  lemma OneByte(t: string)
    ensures |t| == 1 ==> (Plain(t[0]) <==> 0x20 <= t[0] as int <= 0x7e && t[0] as int != 0x22 && t[0] as int != 0x5c)
  {
  }

  lemma Escape(t: string)
    ensures |t| == 2 && t[0] == '\\' && t[1] in "\"bnr\\/ft"
            <==> t in ["\\\"", "\\b", "\\n", "\\r", "\\\\", "\\/", "\\f", "\\t"]
  {
    if |t| == 2 { assert t == [t[0], t[1]]; }
  }

  lemma CodePoint(t: string)
    ensures |t| == 6 && t[0] == '\\' && t[1] == 'u' && (forall c | c in t[2..] :: HexDigit(c))
            <==> |t| == 6 && t[..2] == "\\u" && forall i :: 2 <= i < 6 ==> Hexadecimal(t[i])
  {
    if |t| == 6 {
      var u := t[2..];
      assert u == [t[2], t[3], t[4], t[5]] && t[..2] == [t[0], t[1]];
      ListedBytes(t[2]);
      ListedBytes(t[3]);
      ListedBytes(t[4]);
      ListedBytes(t[5]);
      assert forall c :: c in u <==> c == t[2] || c == t[3] || c == t[4] || c == t[5];
      hide HexDigit, Plain, Digit;
    }
  }

  lemma Group(t: string)
    ensures var grouped := |t| > 1 && |t| == 1 + Follow(t[0]) && forall c | c in t[1..] :: Continuation(c);
            grouped <==>
              || (|t| == 2 && 0xc0 <= t[0] as int < 0xe0 && Tail(t))
              || (|t| == 3 && 0xe0 <= t[0] as int < 0xf0 && Tail(t))
              || (|t| == 4 && 0xf0 <= t[0] as int < 0xf8 && Tail(t))
  {
    if t != "" { TailIs(t); }
    hide Tail, Continuation;
  }

  lemma TailIs(t: string)
    requires t != ""
    ensures Tail(t) <==> forall c | c in t[1..] :: Continuation(c)
  {
    assert forall i :: 1 <= i < |t| ==> t[i] == t[1..][i - 1];
    if Tail(t) {
      forall c | c in t[1..] ensures Continuation(c) {
        var i :| 0 <= i < |t[1..]| && t[1..][i] == c;
        assert t[i + 1] == c;
      }
    } else {
      var i :| 1 <= i < |t| && !(0x80 <= t[i] as int < 0xc0);
      assert t[1..][i - 1] in t[1..];
    }
  }
}
