// Shell quoting: the printer ShellArg and the decoder of quoted shell words, at byte level.
module Quoting {
  import opened Wrappers

  newtype byte = x: int | 0 <= x < 256
  type Bytes = seq<byte>

  const SINGLE_QUOTE: byte := 39
  const DOUBLE_QUOTE: byte := 34
  const BACKSLASH: byte := 92
  const DOLLAR: byte := 36
  const BACKTICK: byte := 96
  const LETTER_X: byte := 120

  // ------------------------------------------------------------------ printer

  /** Every single quote becomes '"'"' : close, a double-quoted quote, reopen. */
  function EscapeQuotes(s: Bytes): Bytes {
    if s == [] then []
    else (if s[0] == SINGLE_QUOTE
          then [SINGLE_QUOTE, DOUBLE_QUOTE, SINGLE_QUOTE, DOUBLE_QUOTE, SINGLE_QUOTE]
          else [s[0]]) + EscapeQuotes(s[1..])
  }

  function ShellArg(s: Bytes): Bytes {
    [SINGLE_QUOTE] + EscapeQuotes(s) + [SINGLE_QUOTE]
  }

  // ------------------------------------------------- decoder, as a specification

  /** What one quoted piece decodes to, and the bytes behind it. */
  datatype Piece = Piece(text: Bytes, rest: Bytes)

  function Prepend(b: Bytes, p: Option<Piece>): (r: Option<Piece>)
    ensures r.Some? <==> p.Some?
    ensures b == [] ==> r == p
    ensures p.Some? && p.value.text == [] ==> r == Some(Piece(b, p.value.rest))
  {
    match p
    case None => None
    case Some(q) =>
      assert [] + q.text == q.text && b + [] == b;
      Some(Piece(b + q.text, q.rest))
  }

  lemma PrependTwice(a: Bytes, b: Bytes, p: Option<Piece>)
    ensures Prepend(a, Prepend(b, p)) == Prepend(a + b, p)
  {
    if p.Some? { assert a + (b + p.value.text) == a + b + p.value.text; }
  }

  function PrependText(b: Bytes, t: Option<Bytes>): (r: Option<Bytes>)
    ensures r.Some? <==> t.Some?
    ensures b == [] ==> r == t
    ensures t == Some([]) ==> r == Some(b)
  {
    match t
    case None => None
    case Some(u) =>
      assert [] + u == u && b + [] == b;
      Some(b + u)
  }

  lemma PrependTextTwice(a: Bytes, b: Bytes, t: Option<Bytes>)
    ensures PrependText(a, PrependText(b, t)) == PrependText(a + b, t)
  {
    if t.Some? { assert a + (b + t.value) == a + b + t.value; }
  }

  /** The body of '...' up to its closing quote. */
  function SingleBody(s: Bytes): (p: Option<Piece>)
    ensures p.Some? ==> |p.value.rest| < |s|
  {
    if s == [] then None
    else if s[0] == SINGLE_QUOTE then Some(Piece([], s[1..]))
    else Prepend([s[0]], SingleBody(s[1..]))
  }

  /** Inside "..." a backslash is special only ahead of one of these. */
  predicate EscapableInDouble(c: byte) {
    c == DOLLAR || c == BACKTICK || c == DOUBLE_QUOTE || c == BACKSLASH
  }

  /** The body of "..." up to its closing quote. */
  function DoubleBody(s: Bytes): (p: Option<Piece>)
    ensures p.Some? ==> |p.value.rest| < |s|
  {
    if s == [] then None
    else if s[0] == DOUBLE_QUOTE then Some(Piece([], s[1..]))
    else if s[0] == BACKSLASH && |s| > 1 && EscapableInDouble(s[1]) then
      Prepend([s[1]], DoubleBody(s[2..]))
    else Prepend([s[0]], DoubleBody(s[1..]))
  }

  predicate IsOctal(c: byte) { 48 <= c <= 55 }

  function HexValue(c: byte): (v: Option<byte>)
    ensures v.Some? ==> v.value < 16
  {
    if 48 <= c <= 57 then Some(c - 48)
    else if 97 <= c <= 102 then Some(c - 87)
    else if 65 <= c <= 70 then Some(c - 55)
    else None
  }

  /** The one-letter escapes of $'...'. */
  function SimpleEscape(c: byte): Option<byte> {
    if c == 97 then Some(7)          // \a
    else if c == 98 then Some(8)     // \b
    else if c == 102 then Some(12)   // \f
    else if c == 110 then Some(10)   // \n
    else if c == 114 then Some(13)   // \r
    else if c == 116 then Some(9)    // \t
    else if c == 118 then Some(11)   // \v
    else if c == 101 then Some(27)   // \e
    else if c == BACKSLASH || c == SINGLE_QUOTE || c == DOUBLE_QUOTE || c == 63 then Some(c)
    else None
  }

  /** How many of the first `max` bytes are octal digits, and their value. */
  function OctalRun(s: Bytes, max: nat): (r: (nat, nat))
    ensures r.0 <= |s| && r.0 <= max
    decreases max
  {
    OctalRunFrom(s, max, 0)
  }

  function OctalRunFrom(s: Bytes, max: nat, v: nat): (r: (nat, nat))
    ensures r.0 <= |s| && r.0 <= max
    decreases max
  {
    if max == 0 || s == [] || !IsOctal(s[0]) then (0, v)
    else var r := OctalRunFrom(s[1..], max - 1, v * 8 + (s[0] as int - 48)); (r.0 + 1, r.1)
  }

  function HexRunFrom(s: Bytes, max: nat, v: nat): (r: (nat, nat))
    ensures r.0 <= |s| && r.0 <= max
    ensures max == 0 ==> r.1 == v
    ensures max == 1 ==> r.1 <= 16 * v + 15
    ensures max == 2 ==> r.1 <= 256 * v + 255
    decreases max
  {
    if max == 0 || s == [] || HexValue(s[0]).None? then (0, v)
    else var r := HexRunFrom(s[1..], max - 1, v * 16 + (HexValue(s[0]).value as int)); (r.0 + 1, r.1)
  }

  /** The byte one escape of $'...' stands for, and the bytes behind it; s begins after the backslash. */
  function AnsiEscape(s: Bytes): (p: Option<Piece>)
    requires s != []
    ensures p.Some? ==> |p.value.rest| < |s|
  {
    if IsOctal(s[0]) then
      var r := OctalRun(s, 3);
      if r.1 > 255 then None else Some(Piece([r.1 as byte], s[r.0..]))
    else if s[0] == LETTER_X then
      var r := HexRunFrom(s[1..], 2, 0);
      if r.0 == 0 then None else Some(Piece([r.1 as byte], s[1 + r.0..]))
    else match SimpleEscape(s[0])
      case None => None
      case Some(b) => Some(Piece([b], s[1..]))
  }

  /** The body of $'...' up to its closing quote. */
  function AnsiBody(s: Bytes): (p: Option<Piece>)
    ensures p.Some? ==> |p.value.rest| < |s|
    decreases |s|
  {
    if s == [] then None
    else if s[0] == SINGLE_QUOTE then Some(Piece([], s[1..]))
    else if s[0] != BACKSLASH then Prepend([s[0]], AnsiBody(s[1..]))
    else if |s| == 1 then None
    else match AnsiEscape(s[1..])
      case None => None
      case Some(e) => Prepend(e.text, AnsiBody(e.rest))
  }

  /** One quoted piece at the front of s. */
  function FirstPiece(s: Bytes): (p: Option<Piece>)
    requires s != []
    ensures p.Some? ==> |p.value.rest| < |s|
  {
    if s[0] == SINGLE_QUOTE then SingleBody(s[1..])
    else if s[0] == DOUBLE_QUOTE then DoubleBody(s[1..])
    else if s[0] == DOLLAR && |s| > 1 && s[1] == SINGLE_QUOTE then AnsiBody(s[2..])
    else if s[0] == BACKSLASH && |s| > 1 then Some(Piece([s[1]], s[2..]))
    else None
  }

  /** A possibly empty run of quoted pieces. */
  function Pieces(s: Bytes): Option<Bytes>
    decreases |s|
  {
    if s == [] then Some([])
    else match FirstPiece(s)
      case None => None
      case Some(p) => PrependText(p.text, Pieces(p.rest))
  }

  /** A word: a non-empty run of quoted pieces and nothing else. */
  function Unquoted(s: Bytes): Option<Bytes> {
    if s == [] then None else Pieces(s)
  }

  // ------------------------------------------------------------ decoder, as loops

  /** The value of up to three octal digits from `at`, and where they end. */
  method OctalDigits(s: Bytes, at: nat) returns (v: nat, next: nat)
    requires at < |s|
    ensures at <= next <= |s|
    ensures OctalRun(s[at..], 3) == (next - at, v)
  {
    next, v := at, 0;
    while next < |s| && next < at + 3 && IsOctal(s[next])
      invariant at <= next <= |s| && next <= at + 3
      invariant var r := OctalRunFrom(s[next..], at + 3 - next, v);
                OctalRun(s[at..], 3) == (r.0 + next - at, r.1)
    {
      assert s[next..][1..] == s[next + 1..];
      v := v * 8 + (s[next] as int - 48);
      next := next + 1;
    }
  }

  /** The value of up to two hexadecimal digits from `at`, and where they end. */
  method HexDigits(s: Bytes, at: nat) returns (v: nat, next: nat)
    requires at <= |s|
    ensures at <= next <= |s|
    ensures HexRunFrom(s[at..], 2, 0) == (next - at, v)
  {
    hide HexValue;
    next, v := at, 0;
    while next < |s| && next < at + 2 && HexValue(s[next]).Some?
      invariant at <= next <= |s| && next <= at + 2
      invariant var r := HexRunFrom(s[next..], at + 2 - next, v);
                HexRunFrom(s[at..], 2, 0) == (r.0 + next - at, r.1)
    {
      DropTwice(s, next, 1);
      v := v * 16 + (HexValue(s[next]).value as int);
      next := next + 1;
    }
  }

  /** The escape whose letter is at `at`: the byte it stands for and where the body goes on. */
  lemma DropTwice(s: Bytes, m: nat, n: nat)
    requires m + n <= |s|
    ensures s[m..][n..] == s[m + n..]
  {
  }

  method DecodeEscape(s: Bytes, at: nat) returns (b: byte, next: nat, ok: bool)
    requires 0 < at < |s|
    ensures ok <==> AnsiEscape(s[at..]).Some?
    ensures ok ==> at < next <= |s| && AnsiEscape(s[at..]) == Some(Piece([b], s[next..]))
  {
    hide OctalRunFrom, HexRunFrom, HexValue, SimpleEscape;
    b, next, ok := 0, at, false;
    DropTwice(s, at, 1);
    if IsOctal(s[at]) {
      var v;
      v, next := OctalDigits(s, at);
      if v > 255 { return; }
      DropTwice(s, at, next - at);
      return v as byte, next, true;
    } else if s[at] == LETTER_X {
      var v;
      v, next := HexDigits(s, at + 1);
      if next == at + 1 { return; }
      DropTwice(s, at, next - at);
      return v as byte, next, true;
    } else {
      var r := SimpleEscape(s[at]);
      if r.None? { return; }
      return r.value, at + 1, true;
    }
  }

  method DecodeAnsiC(s: Bytes) returns (text: Bytes, rest: Bytes, ok: bool)
    ensures ok <==> AnsiBody(s).Some?
    ensures ok ==> AnsiBody(s) == Some(Piece(text, rest))
  {
    text, rest, ok := [], [], false;
    var i := 0;
    assert s[0..] == s;
    while i < |s|
      invariant 0 <= i <= |s|
      invariant AnsiBody(s) == Prepend(text, AnsiBody(s[i..]))
    {
      var c := s[i];
      var here := s[i..];
      if c == SINGLE_QUOTE {
        assert here[1..] == s[i + 1..];
        return text, s[i + 1..], true;
      } else if c != BACKSLASH {
        assert here[1..] == s[i + 1..];
        PrependTwice(text, [c], AnsiBody(s[i + 1..]));
        text := text + [c];
        i := i + 1;
      } else if i + 1 == |s| {
        return [], [], false;
      } else {
        var b, j, good := DecodeEscape(s, i + 1);
        if !good { return [], [], false; }
        assert here[1..] == s[i + 1..];
        PrependTwice(text, [b], AnsiBody(s[j..]));
        text := text + [b];
        i := j;
      }
    }
  }

  method UnquoteShellWord(word: Bytes) returns (text: Bytes, ok: bool)
    ensures ok <==> Unquoted(word).Some?
    ensures ok ==> text == Unquoted(word).value
  {
    if word == [] { return [], false; }
    var s := word;
    text := [];
    while |s| > 0
      invariant Unquoted(word) == PrependText(text, Pieces(s))
      decreases |s|
    {
      if s[0] == SINGLE_QUOTE {
        var end := IndexOfQuote(s[1..]);
        if end < 0 { return [], false; }
        assert s[1..][..end] == s[1..1 + end] && s[1..][end + 1..] == s[end + 2..];
        PrependTextTwice(text, s[1..1 + end], Pieces(s[end + 2..]));
        text := text + s[1..1 + end];
        s := s[end + 2..];
      } else if s[0] == DOUBLE_QUOTE {
        var i, body := 1, [];
        while i < |s| && s[i] != DOUBLE_QUOTE
          invariant 1 <= i <= |s|
          invariant DoubleBody(s[1..]) == Prepend(body, DoubleBody(s[i..]))
        {
          ghost var here := s[i..];
          assert here[1..] == s[i + 1..];
          if s[i] == BACKSLASH && i + 1 < |s| && EscapableInDouble(s[i + 1]) {
            assert here[2..] == s[i + 2..];
            i := i + 1;
          }
          PrependTwice(body, [s[i]], DoubleBody(s[i + 1..]));
          body := body + [s[i]];
          i := i + 1;
        }
        if i == |s| { return [], false; }
        assert s[i..][1..] == s[i + 1..];
        PrependTextTwice(text, body, Pieces(s[i + 1..]));
        text := text + body;
        s := s[i + 1..];
      } else if s[0] == DOLLAR && |s| > 1 && s[1] == SINGLE_QUOTE {
        var body, rest, decoded := DecodeAnsiC(s[2..]);
        if !decoded { return [], false; }
        PrependTextTwice(text, body, Pieces(rest));
        text := text + body;
        s := rest;
      } else if s[0] == BACKSLASH && |s| > 1 {
        PrependTextTwice(text, [s[1]], Pieces(s[2..]));
        text := text + [s[1]];
        s := s[2..];
      } else {
        return [], false;
      }
    }
    return text, true;
  }

  /** The position of the first single quote, or -1. */
  method IndexOfQuote(s: Bytes) returns (at: int)
    ensures at < 0 <==> SingleBody(s).None?
    ensures at >= 0 ==> at < |s| && SingleBody(s) == Some(Piece(s[..at], s[at + 1..]))
  {
    at := 0;
    assert s[0..] == s;
    while at < |s|
      invariant 0 <= at <= |s|
      invariant SingleBody(s) == Prepend(s[..at], SingleBody(s[at..]))
    {
      assert s[at..][1..] == s[at + 1..];
      PrependTwice(s[..at], [s[at]], SingleBody(s[at + 1..]));
      if s[at] == SINGLE_QUOTE { return; }
      assert s[..at] + [s[at]] == s[..at + 1];
      at := at + 1;
    }
    at := -1;
  }

  // ------------------------------------------------------------------- properties

  /** What follows a single-quoted piece never changes how it decodes. */
  lemma {:induction false} SingleBodyExtends(s: Bytes, t: Bytes)
    requires SingleBody(s).Some?
    ensures SingleBody(s + t) == Some(Piece(SingleBody(s).value.text, SingleBody(s).value.rest + t))
  {
    assert (s + t)[1..] == s[1..] + t;
    if s[0] != SINGLE_QUOTE { SingleBodyExtends(s[1..], t); }
  }

  lemma {:induction false} DoubleBodyExtends(s: Bytes, t: Bytes)
    requires DoubleBody(s).Some?
    ensures DoubleBody(s + t) == Some(Piece(DoubleBody(s).value.text, DoubleBody(s).value.rest + t))
  {
    assert (s + t)[1..] == s[1..] + t;
    if s[0] != DOUBLE_QUOTE {
      if s[0] == BACKSLASH && |s| > 1 && EscapableInDouble(s[1]) {
        assert (s + t)[2..] == s[2..] + t;
        DoubleBodyExtends(s[2..], t);
      } else {
        DoubleBodyExtends(s[1..], t);
      }
    }
  }

  /** An escape run that a later byte of the same body ends is not lengthened by what follows the body. */
  lemma {:induction false} OctalRunExtends(s: Bytes, t: Bytes, max: nat, v: nat)
    requires OctalRunFrom(s, max, v).0 < |s|
    ensures OctalRunFrom(s + t, max, v) == OctalRunFrom(s, max, v)
    decreases max
  {
    if max > 0 && IsOctal(s[0]) {
      assert (s + t)[1..] == s[1..] + t;
      OctalRunExtends(s[1..], t, max - 1, v * 8 + (s[0] as int - 48));
    }
  }

  lemma {:induction false} HexRunExtends(s: Bytes, t: Bytes, max: nat, v: nat)
    requires HexRunFrom(s, max, v).0 < |s|
    ensures HexRunFrom(s + t, max, v) == HexRunFrom(s, max, v)
    decreases max
  {
    if max > 0 && HexValue(s[0]).Some? {
      assert (s + t)[1..] == s[1..] + t;
      HexRunExtends(s[1..], t, max - 1, v * 16 + (HexValue(s[0]).value as int));
    }
  }

  lemma {:induction false} AnsiBodyExtends(s: Bytes, t: Bytes)
    requires AnsiBody(s).Some?
    ensures AnsiBody(s + t) == Some(Piece(AnsiBody(s).value.text, AnsiBody(s).value.rest + t))
    decreases |s|
  {
    assert (s + t)[1..] == s[1..] + t;
    if s[0] != SINGLE_QUOTE {
      if s[0] != BACKSLASH {
        AnsiBodyExtends(s[1..], t);
      } else {
        var e := AnsiEscape(s[1..]).value;
        AnsiBodyExtends(e.rest, t);
        AnsiEscapeExtends(s[1..], t);
      }
    }
  }

  lemma DropConcat(s: Bytes, t: Bytes, n: nat)
    requires n <= |s|
    ensures (s + t)[n..] == s[n..] + t
  {
  }

  lemma AnsiEscapeExtends(s: Bytes, t: Bytes)
    requires s != [] && AnsiEscape(s).Some? && AnsiEscape(s).value.rest != []
    ensures AnsiEscape(s + t) == Some(Piece(AnsiEscape(s).value.text, AnsiEscape(s).value.rest + t))
  {
    if IsOctal(s[0]) {
      OctalRunExtends(s, t, 3, 0);
      DropConcat(s, t, OctalRun(s, 3).0);
    } else if s[0] == LETTER_X {
      DropConcat(s, t, 1);
      HexRunExtends(s[1..], t, 2, 0);
      DropConcat(s, t, 1 + HexRunFrom(s[1..], 2, 0).0);
    } else {
      assert (s + t)[1..] == s[1..] + t;
    }
  }

  lemma FirstPieceExtends(s: Bytes, t: Bytes)
    requires s != [] && FirstPiece(s).Some?
    ensures FirstPiece(s + t) == Some(Piece(FirstPiece(s).value.text, FirstPiece(s).value.rest + t))
  {
    assert (s + t)[1..] == s[1..] + t;
    if s[0] == SINGLE_QUOTE { SingleBodyExtends(s[1..], t); }
    else if s[0] == DOUBLE_QUOTE { DoubleBodyExtends(s[1..], t); }
    else {
      assert (s + t)[2..] == s[2..] + t;
      if s[0] == DOLLAR && |s| > 1 && s[1] == SINGLE_QUOTE { AnsiBodyExtends(s[2..], t); }
    }
  }

  lemma {:induction false} PiecesConcat(a: Bytes, b: Bytes)
    requires Pieces(a).Some?
    ensures Pieces(a + b) == PrependText(Pieces(a).value, Pieces(b))
    decreases |a|
  {
    if a == [] {
      assert a + b == b;
    } else {
      FirstPieceExtends(a, b);
      var p := FirstPiece(a).value;
      PiecesConcat(p.rest, b);
      PrependTextTwice(p.text, Pieces(p.rest).value, Pieces(b));
    }
  }

  /** Behind a decodable word a tail decodes exactly when it decodes on its own, and the texts concatenate. */
  lemma UnquoteConcat(a: Bytes, b: Bytes)
    requires Unquoted(a).Some? && b != []
    ensures Unquoted(a + b) == PrependText(Unquoted(a).value, Unquoted(b))
  {
    PiecesConcat(a, b);
  }

  lemma PlainByteStep(c: byte, tail: Bytes)
    requires c != SINGLE_QUOTE
    ensures Pieces([SINGLE_QUOTE] + ([c] + tail)) == PrependText([c], Pieces([SINGLE_QUOTE] + tail))
  {
    assert ([SINGLE_QUOTE] + ([c] + tail))[1..] == [c] + tail && ([c] + tail)[1..] == tail;
    assert ([SINGLE_QUOTE] + tail)[1..] == tail;
    assert SingleBody([c] + tail) == Prepend([c], SingleBody(tail));
    if SingleBody(tail).Some? {
      var p := SingleBody(tail).value;
      PrependTextTwice([c], p.text, Pieces(p.rest));
    }
  }

  lemma QuoteStep(tail: Bytes)
    ensures Pieces([SINGLE_QUOTE] + ([SINGLE_QUOTE, DOUBLE_QUOTE, SINGLE_QUOTE, DOUBLE_QUOTE, SINGLE_QUOTE] + tail))
         == PrependText([SINGLE_QUOTE], Pieces([SINGLE_QUOTE] + tail))
  {
    var q: Bytes := [DOUBLE_QUOTE, SINGLE_QUOTE, DOUBLE_QUOTE];
    var body := [SINGLE_QUOTE, DOUBLE_QUOTE, SINGLE_QUOTE, DOUBLE_QUOTE, SINGLE_QUOTE] + tail;
    assert ([SINGLE_QUOTE] + body)[1..] == body;
    assert body[1..] == q + ([SINGLE_QUOTE] + tail);
    assert q[1..] == [SINGLE_QUOTE, DOUBLE_QUOTE] && q[1..][1..] == [DOUBLE_QUOTE];
    assert DoubleBody([DOUBLE_QUOTE]) == Some(Piece([], []));
    assert DoubleBody(q[1..]) == Prepend([SINGLE_QUOTE], DoubleBody([DOUBLE_QUOTE]));
    assert Pieces([]) == Some([]);
    PiecesConcat(q, [SINGLE_QUOTE] + tail);
  }

  /** Decoding what ShellArg's body spells, whatever is already inside the open quote. */
  lemma {:induction false} EscapedBodyDecodes(s: Bytes)
    ensures Pieces([SINGLE_QUOTE] + (EscapeQuotes(s) + [SINGLE_QUOTE])) == Some(s)
  {
    if s == [] {
      assert [SINGLE_QUOTE] + (EscapeQuotes(s) + [SINGLE_QUOTE]) == [SINGLE_QUOTE, SINGLE_QUOTE];
      assert [SINGLE_QUOTE, SINGLE_QUOTE][1..] == [SINGLE_QUOTE];
      assert SingleBody([SINGLE_QUOTE]) == Some(Piece([], []));
      assert Pieces([]) == Some([]);
    } else {
      var tail := EscapeQuotes(s[1..]) + [SINGLE_QUOTE];
      hide Pieces;
      EscapedBodyDecodes(s[1..]);
      assert [s[0]] + s[1..] == s;
      if s[0] == SINGLE_QUOTE {
        QuoteStep(tail);
        assert EscapeQuotes(s) + [SINGLE_QUOTE] ==
               [SINGLE_QUOTE, DOUBLE_QUOTE, SINGLE_QUOTE, DOUBLE_QUOTE, SINGLE_QUOTE] + tail;
      } else {
        PlainByteStep(s[0], tail);
        assert EscapeQuotes(s) + [SINGLE_QUOTE] == [s[0]] + tail;
      }
    }
  }

  /** Decoding undoes quoting, for every byte string. */
  lemma ShellArgRoundTrip(s: Bytes)
    ensures Unquoted(ShellArg(s)) == Some(s)
  {
    EscapedBodyDecodes(s);
    assert ShellArg(s) == [SINGLE_QUOTE] + (EscapeQuotes(s) + [SINGLE_QUOTE]);
  }

  /** So two arguments that print alike are the same argument, also in front of more quoted text. */
  lemma ShellArgIsPrefixFree(a: Bytes, b: Bytes, t: Bytes)
    requires ShellArg(a) + t == ShellArg(b) && (t == [] || Unquoted(t).Some?)
    ensures a + (if t == [] then [] else Unquoted(t).value) == b
  {
    ShellArgRoundTrip(a);
    ShellArgRoundTrip(b);
    if t != [] { UnquoteConcat(ShellArg(a), t); }
    else { assert ShellArg(a) + t == ShellArg(a); }
  }

  // The other spellings a host's stat may choose for a path, each an independent check of one decoder branch.

  /** $'...' with every byte as three octal digits. */
  function OctalBody(s: Bytes): Bytes {
    if s == [] then []
    else [BACKSLASH] + OctalSpelling(s[0]) + OctalBody(s[1..])
  }

  function OctalSpelling(b: byte): Bytes {
    [48 + b / 64, 48 + b / 8 % 8, 48 + b % 8]
  }

  function AnsiOctalArg(s: Bytes): Bytes {
    [DOLLAR, SINGLE_QUOTE] + OctalBody(s) + [SINGLE_QUOTE]
  }

  /** One octal digit in front of a run. */
  lemma OctalDigitRun(c: byte, t: Bytes, max: nat, v: nat)
    requires IsOctal(c)
    ensures var r := OctalRunFrom(t, max, v * 8 + (c as int - 48)); OctalRunFrom([c] + t, max + 1, v) == (r.0 + 1, r.1)
  {
    assert ([c] + t)[1..] == t;
  }

  lemma OctalByteDecodes(b: byte, t: Bytes)
    ensures AnsiEscape(OctalSpelling(b) + t) == Some(Piece([b], t))
  {
    hide OctalRunFrom, HexRunFrom, HexValue, SimpleEscape;
    OctalSpellingRun(b, t);
    var s := OctalSpelling(b) + t;
    assert s[0] == 48 + b / 64 && s[3..] == t;
  }

  lemma OctalSpellingRun(b: byte, t: Bytes)
    ensures OctalRun(OctalSpelling(b) + t, 3) == (3, b as int)
  {
    hide OctalRunFrom;
    var e := OctalSpelling(b);
    OctalDigits8(b);
    ThreeDigits(e[0], e[1], e[2], t);
    assert e == [e[0], e[1], e[2]];
  }

  lemma Eighths(n: int)
    requires 0 <= n < 256
    ensures 0 <= n / 64 < 8 && 0 <= n / 8 % 8 < 8 && 0 <= n % 8 < 8 && n / 64 * 64 + n / 8 % 8 * 8 + n % 8 == n
  {
    var m := n / 8;
    assert n == m * 8 + n % 8 && m == m / 8 * 8 + m % 8 && m / 8 == n / 64;
  }

  lemma OctalDigits8(b: byte)
    ensures var e := OctalSpelling(b);
      && IsOctal(e[0]) && IsOctal(e[1]) && IsOctal(e[2])
      && (e[0] as int - 48) * 64 + (e[1] as int - 48) * 8 + (e[2] as int - 48) == b as int
  {
    Eighths(b as int);
    var n := b as int;
    assert (b / 64) as int == n / 64 && (b / 8 % 8) as int == n / 8 % 8 && (b % 8) as int == n % 8;
  }

  lemma ThreeDigits(a: byte, b: byte, c: byte, t: Bytes)
    requires IsOctal(a) && IsOctal(b) && IsOctal(c)
    ensures OctalRun([a, b, c] + t, 3) == (3, (a as int - 48) * 64 + (b as int - 48) * 8 + (c as int - 48))
  {
    hide OctalRunFrom, IsOctal;
    var x, y, z: int := a as int - 48, b as int - 48, c as int - 48;
    assert x >= 0 && y >= 0 && z >= 0 by { OctalIsDigit(a); OctalIsDigit(b); OctalIsDigit(c); }
    NoMoreOctal(t, (x * 8 + y) * 8 + z);
    OctalDigitRun(c, t, 0, x * 8 + y);
    OctalDigitRun(b, [c] + t, 1, x);
    OctalDigitRun(a, [b] + ([c] + t), 2, 0);
    assert [a, b, c] + t == [a] + ([b] + ([c] + t));
  }

  lemma OctalIsDigit(c: byte)
    requires IsOctal(c)
    ensures c >= 48
  {
  }

  lemma NoMoreOctal(t: Bytes, v: nat)
    ensures OctalRunFrom(t, 0, v) == (0, v)
  {
  }

  lemma OctalStep(b: byte, tail: Bytes)
    ensures AnsiBody([BACKSLASH] + (OctalSpelling(b) + tail)) == Prepend([b], AnsiBody(tail))
  {
    OctalByteDecodes(b, tail);
    assert ([BACKSLASH] + (OctalSpelling(b) + tail))[1..] == OctalSpelling(b) + tail;
  }

  lemma {:induction false} OctalBodyDecodes(s: Bytes)
    ensures AnsiBody(OctalBody(s) + [SINGLE_QUOTE]) == Some(Piece(s, []))
  {
    if s != [] {
      var tail := OctalBody(s[1..]) + [SINGLE_QUOTE];
      assert OctalBody(s) + [SINGLE_QUOTE] == [BACKSLASH] + (OctalSpelling(s[0]) + tail);
      OctalStep(s[0], tail);
      OctalBodyDecodes(s[1..]);
      assert [s[0]] + s[1..] == s;
    }
  }

  lemma AnsiOctalRoundTrip(s: Bytes)
    ensures Unquoted(AnsiOctalArg(s)) == Some(s)
  {
    OctalBodyDecodes(s);
    assert AnsiOctalArg(s)[2..] == OctalBody(s) + [SINGLE_QUOTE];
    assert Pieces([]) == Some([]);
  }

  /** "..." with a backslash ahead of each byte that needs one. */
  function DoubleQuotedBody(s: Bytes): Bytes {
    if s == [] then []
    else (if s[0] in [DOLLAR, BACKTICK, DOUBLE_QUOTE, BACKSLASH] then [BACKSLASH, s[0]] else [s[0]]) + DoubleQuotedBody(s[1..])
  }

  function DoubleQuotedArg(s: Bytes): Bytes {
    [DOUBLE_QUOTE] + DoubleQuotedBody(s) + [DOUBLE_QUOTE]
  }

  lemma EmptyDoubleBody()
    ensures DoubleBody([DOUBLE_QUOTE]) == Some(Piece([], []))
  {
    assert [DOUBLE_QUOTE][1..] == [];
  }

  /** One escaped or plain byte in front of a body that decodes. */
  lemma DoubleBodyStep(c: byte, tail: Bytes)
    requires DoubleBody(tail).Some?
    ensures var rest := DoubleBody(tail).value;
      DoubleBody((if c in [DOLLAR, BACKTICK, DOUBLE_QUOTE, BACKSLASH] then [BACKSLASH, c] else [c]) + tail)
        == Some(Piece([c] + rest.text, rest.rest))
  {
    assert ([BACKSLASH, c] + tail)[2..] == tail && ([c] + tail)[1..] == tail;
  }

  lemma DoubleBodyHead(c: byte, tail: Bytes)
    ensures tail != [] && c == BACKSLASH && !EscapableInDouble(tail[0]) ==> DoubleBody([c] + tail) == Prepend([c], DoubleBody(tail))
    ensures c != BACKSLASH && c != DOUBLE_QUOTE ==> DoubleBody([c] + tail) == Prepend([c], DoubleBody(tail))
  {
    assert ([c] + tail)[1..] == tail;
  }

  /** Ahead of any other byte a backslash in "..." stands for itself. */
  lemma PlainBackslash(c: byte, tail: Bytes)
    requires c !in [DOLLAR, BACKTICK, DOUBLE_QUOTE, BACKSLASH]
    ensures DoubleBody([BACKSLASH, c] + tail) == Prepend([BACKSLASH, c], DoubleBody(tail))
  {
    assert c != BACKSLASH && c != DOUBLE_QUOTE && !EscapableInDouble(c);
    hide DoubleBody, EscapableInDouble;
    DoubleBodyHead(c, tail);
    DoubleBodyHead(BACKSLASH, [c] + tail);
    assert [BACKSLASH, c] + tail == [BACKSLASH] + ([c] + tail) && [BACKSLASH] + [c] == [BACKSLASH, c];
    PrependTwice([BACKSLASH], [c], DoubleBody(tail));
  }

  lemma {:induction false} DoubleQuotedBodyDecodes(s: Bytes)
    ensures DoubleBody(DoubleQuotedBody(s) + [DOUBLE_QUOTE]) == Some(Piece(s, []))
  {
    if s == [] {
      assert DoubleQuotedBody(s) + [DOUBLE_QUOTE] == [DOUBLE_QUOTE];
      EmptyDoubleBody();
    } else {
      var tail := DoubleQuotedBody(s[1..]) + [DOUBLE_QUOTE];
      DoubleQuotedBodyDecodes(s[1..]);
      assert [s[0]] + s[1..] == s;
      DoubleBodyStep(s[0], tail);
      hide DoubleBody;
      if s[0] in [DOLLAR, BACKTICK, DOUBLE_QUOTE, BACKSLASH] {
        assert DoubleQuotedBody(s) + [DOUBLE_QUOTE] == [BACKSLASH, s[0]] + tail;
      } else {
        assert DoubleQuotedBody(s) + [DOUBLE_QUOTE] == [s[0]] + tail;
      }
    }
  }

  lemma DoubleQuotedRoundTrip(s: Bytes)
    ensures Unquoted(DoubleQuotedArg(s)) == Some(s)
  {
    DoubleQuotedBodyDecodes(s);
    assert DoubleQuotedArg(s)[1..] == DoubleQuotedBody(s) + [DOUBLE_QUOTE];
    assert Pieces([]) == Some([]);
  }

  // $'...' with letters and with hexadecimal digits.

  /** The letter ahead of which a backslash stands for this byte, as GNU tools print it. */
  function EscapeLetter(b: byte): Option<byte> {
    if b == 7 then Some('a' as int as byte)
    else if b == 8 then Some('b' as int as byte)
    else if b == 9 then Some('t' as int as byte)
    else if b == 10 then Some('n' as int as byte)
    else if b == 11 then Some('v' as int as byte)
    else if b == 12 then Some('f' as int as byte)
    else if b == 13 then Some('r' as int as byte)
    else if b == 27 then Some('e' as int as byte)
    else if b in [SINGLE_QUOTE, DOUBLE_QUOTE, BACKSLASH, 63] then Some(b)
    else None
  }

  function LetterSpelling(b: byte): Bytes {
    match EscapeLetter(b) case Some(letter) => [BACKSLASH, letter] case None => [b]
  }

  function LetterBody(s: Bytes): Bytes { if s == [] then [] else LetterSpelling(s[0]) + LetterBody(s[1..]) }

  function AnsiLetterArg(s: Bytes): Bytes { [DOLLAR, SINGLE_QUOTE] + LetterBody(s) + [SINGLE_QUOTE] }

  function HexDigit(d: byte, upper: bool): byte
    requires d < 16
  {
    if d < 10 then 48 + d else (if upper then 'A' as int as byte else 'a' as int as byte) + (d - 10)
  }

  function HexSpelling(b: byte, upper: bool): Bytes {
    [BACKSLASH, 'x' as int as byte, HexDigit(b / 16, upper), HexDigit(b % 16, upper)]
  }

  function HexBody(s: Bytes, upper: bool): Bytes { if s == [] then [] else HexSpelling(s[0], upper) + HexBody(s[1..], upper) }

  function AnsiHexArg(s: Bytes, upper: bool): Bytes { [DOLLAR, SINGLE_QUOTE] + HexBody(s, upper) + [SINGLE_QUOTE] }

  lemma LetterDecodes(b: byte)
    ensures match EscapeLetter(b)
            case Some(letter) => SimpleEscape(letter) == Some(b) && !IsOctal(letter) && letter != LETTER_X
            case None => b != BACKSLASH && b != SINGLE_QUOTE
  {
  }

  lemma LetterStep(b: byte, tail: Bytes)
    ensures AnsiBody(LetterSpelling(b) + tail) == Prepend([b], AnsiBody(tail))
  {
    LetterDecodes(b);
    hide EscapeLetter, SimpleEscape, OctalRun, HexRunFrom;
    var s := LetterSpelling(b) + tail;
    if EscapeLetter(b).Some? {
      var e := [EscapeLetter(b).value] + tail;
      assert s[0] == BACKSLASH && s[1..] == e && e[1..] == tail;
    } else {
      assert s[0] == b && s[1..] == tail;
    }
  }

  lemma EmptyAnsiBody()
    ensures AnsiBody([SINGLE_QUOTE]) == Some(Piece([], []))
  {
  }

  lemma {:induction false} LetterBodyDecodes(s: Bytes)
    ensures AnsiBody(LetterBody(s) + [SINGLE_QUOTE]) == Some(Piece(s, []))
  {
    EmptyAnsiBody();
    hide AnsiBody, LetterSpelling;
    if s == [] {
      assert LetterBody(s) + [SINGLE_QUOTE] == [SINGLE_QUOTE];
    } else {
      var tail := LetterBody(s[1..]) + [SINGLE_QUOTE];
      assert LetterBody(s) + [SINGLE_QUOTE] == LetterSpelling(s[0]) + tail;
      LetterStep(s[0], tail);
      LetterBodyDecodes(s[1..]);
      assert [s[0]] + s[1..] == s;
    }
  }

  lemma AnsiWordDecodes(body: Bytes, s: Bytes)
    requires AnsiBody(body + [SINGLE_QUOTE]) == Some(Piece(s, []))
    ensures Unquoted([DOLLAR, SINGLE_QUOTE] + body + [SINGLE_QUOTE]) == Some(s)
  {
    hide AnsiBody;
    assert ([DOLLAR, SINGLE_QUOTE] + body + [SINGLE_QUOTE])[2..] == body + [SINGLE_QUOTE];
    assert Pieces([]) == Some([]);
  }

  lemma AnsiLetterRoundTrip(s: Bytes)
    ensures Unquoted(AnsiLetterArg(s)) == Some(s)
  {
    LetterBodyDecodes(s);
    AnsiWordDecodes(LetterBody(s), s);
  }

  lemma HexDigitValue(d: byte, upper: bool)
    requires d < 16
    ensures HexValue(HexDigit(d, upper)) == Some(d)
  {
  }

  lemma HexDigitRun(d: byte, upper: bool, t: Bytes, max: nat, v: nat)
    requires d < 16
    ensures var r := HexRunFrom(t, max, v * 16 + d as int); HexRunFrom([HexDigit(d, upper)] + t, max + 1, v) == (r.0 + 1, r.1)
  {
    HexDigitValue(d, upper);
    hide HexValue, HexDigit;
    assert ([HexDigit(d, upper)] + t)[1..] == t;
  }

  lemma HexByteDecodes(b: byte, upper: bool, t: Bytes)
    ensures AnsiEscape(HexSpelling(b, upper)[1..] + t) == Some(Piece([b], t))
  {
    var e := HexSpelling(b, upper);
    HexDigitRun(b % 16, upper, t, 0, (b / 16) as int);
    HexDigitRun(b / 16, upper, [e[3]] + t, 1, 0);
    hide HexRunFrom, HexValue, HexDigit, OctalRun, SimpleEscape;
    var run := [e[2]] + ([e[3]] + t);
    assert HexRunFrom(t, 0, b as int) == (0, b as int) by { NoMoreHex(t, b as int); }
    assert HexRunFrom(run, 2, 0) == (2, b as int);
    var s := e[1..] + t;
    assert s[0] == LETTER_X && s[1..] == run && s[3..] == t;
  }

  lemma NoMoreHex(t: Bytes, v: nat)
    ensures HexRunFrom(t, 0, v) == (0, v)
  {
  }

  lemma HexStep(b: byte, upper: bool, tail: Bytes)
    ensures AnsiBody(HexSpelling(b, upper) + tail) == Prepend([b], AnsiBody(tail))
  {
    HexByteDecodes(b, upper, tail);
    hide AnsiEscape, HexDigit;
    var s := HexSpelling(b, upper) + tail;
    assert s[0] == BACKSLASH && s[1..] == HexSpelling(b, upper)[1..] + tail;
  }

  lemma {:induction false} HexBodyDecodes(s: Bytes, upper: bool)
    ensures AnsiBody(HexBody(s, upper) + [SINGLE_QUOTE]) == Some(Piece(s, []))
  {
    EmptyAnsiBody();
    hide AnsiBody, HexSpelling;
    if s == [] {
      assert HexBody(s, upper) + [SINGLE_QUOTE] == [SINGLE_QUOTE];
    } else {
      var tail := HexBody(s[1..], upper) + [SINGLE_QUOTE];
      assert HexBody(s, upper) + [SINGLE_QUOTE] == HexSpelling(s[0], upper) + tail;
      HexStep(s[0], upper, tail);
      HexBodyDecodes(s[1..], upper);
      assert [s[0]] + s[1..] == s;
    }
  }

  lemma AnsiHexRoundTrip(s: Bytes, upper: bool)
    ensures Unquoted(AnsiHexArg(s, upper)) == Some(s)
  {
    HexBodyDecodes(s, upper);
    AnsiWordDecodes(HexBody(s, upper), s);
  }

  // A backslash outside quotes.

  /** Every byte behind a backslash. */
  function BackslashArg(s: Bytes): Bytes { if s == [] then [] else [BACKSLASH, s[0]] + BackslashArg(s[1..]) }

  lemma BackslashPiece(c: byte, tail: Bytes)
    ensures Pieces([BACKSLASH, c] + tail) == PrependText([c], Pieces(tail))
  {
    assert ([BACKSLASH, c] + tail)[2..] == tail;
  }

  lemma {:induction false} BackslashesDecode(s: Bytes)
    ensures Pieces(BackslashArg(s)) == Some(s)
  {
    if s == [] {
      assert Pieces([]) == Some([]);
    } else {
      BackslashPiece(s[0], BackslashArg(s[1..]));
      BackslashesDecode(s[1..]);
      assert [s[0]] + s[1..] == s;
    }
  }

  /** A backslash ahead of every byte of a non-empty word keeps the word. */
  lemma BackslashRoundTrip(s: Bytes)
    requires s != []
    ensures Unquoted(BackslashArg(s)) == Some(s)
  {
    BackslashesDecode(s);
  }

  /** '...' with each single quote as '\'' : close, a quote behind a backslash, reopen. */
  function ReopenedBody(s: Bytes): Bytes {
    if s == [] then []
    else (if s[0] == SINGLE_QUOTE then [SINGLE_QUOTE, BACKSLASH, SINGLE_QUOTE, SINGLE_QUOTE] else [s[0]]) + ReopenedBody(s[1..])
  }

  function ReopenedArg(s: Bytes): Bytes { [SINGLE_QUOTE] + ReopenedBody(s) + [SINGLE_QUOTE] }

  lemma ReopenStep(tail: Bytes)
    ensures Pieces([SINGLE_QUOTE] + ([SINGLE_QUOTE, BACKSLASH, SINGLE_QUOTE, SINGLE_QUOTE] + tail))
         == PrependText([SINGLE_QUOTE], Pieces([SINGLE_QUOTE] + tail))
  {
    var body := [SINGLE_QUOTE, BACKSLASH, SINGLE_QUOTE, SINGLE_QUOTE] + tail;
    assert ([SINGLE_QUOTE] + body)[1..] == body;
    assert body[1..] == [BACKSLASH, SINGLE_QUOTE] + ([SINGLE_QUOTE] + tail);
    BackslashPiece(SINGLE_QUOTE, [SINGLE_QUOTE] + tail);
  }

  lemma {:induction false} ReopenedBodyDecodes(s: Bytes)
    ensures Pieces([SINGLE_QUOTE] + (ReopenedBody(s) + [SINGLE_QUOTE])) == Some(s)
  {
    if s == [] {
      EscapedBodyDecodes([]);
      assert ReopenedBody(s) == EscapeQuotes([]);
    } else {
      var tail := ReopenedBody(s[1..]) + [SINGLE_QUOTE];
      hide Pieces;
      ReopenedBodyDecodes(s[1..]);
      assert [s[0]] + s[1..] == s;
      if s[0] == SINGLE_QUOTE {
        ReopenStep(tail);
        assert ReopenedBody(s) + [SINGLE_QUOTE] == [SINGLE_QUOTE, BACKSLASH, SINGLE_QUOTE, SINGLE_QUOTE] + tail;
      } else {
        PlainByteStep(s[0], tail);
        assert ReopenedBody(s) + [SINGLE_QUOTE] == [s[0]] + tail;
      }
    }
  }

  lemma ReopenedRoundTrip(s: Bytes)
    ensures Unquoted(ReopenedArg(s)) == Some(s)
  {
    ReopenedBodyDecodes(s);
    assert ReopenedArg(s) == [SINGLE_QUOTE] + (ReopenedBody(s) + [SINGLE_QUOTE]);
  }

  /** An unquoted byte where a piece should start fails the whole word, wherever it stands. */
  lemma UnquotedByteFails(a: Bytes, c: byte, b: Bytes)
    requires a == [] || Unquoted(a).Some?
    requires c !in {SINGLE_QUOTE, DOUBLE_QUOTE, BACKSLASH, DOLLAR}
    ensures Unquoted(a + [c] + b).None?
  {
    assert a + [c] + b == a + ([c] + b);
    if a == [] { assert a + ([c] + b) == [c] + b; } else { UnquoteConcat(a, [c] + b); }
  }
}
