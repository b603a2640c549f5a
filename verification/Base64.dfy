/** Base64 as in section 4 of RFC 4648, decoded as Python's b64decode does without validation: characters
    outside the alphabet are skipped. */
module Base64 {
  import opened Common

  type byte = b: int | 0 <= b < 256
  type sextet = v: int | 0 <= v < 64

  function Letter(v: sextet): char {
    if v < 26 then ('A' as int + v) as char
    else if v < 52 then ('a' as int + v - 26) as char
    else if v < 62 then ('0' as int + v - 52) as char
    else if v == 62 then '+'
    else '/'
  }

  function Value(c: char): Option<sextet> {
    if 'A' <= c <= 'Z' then Some(c as int - 'A' as int)
    else if 'a' <= c <= 'z' then Some(c as int - 'a' as int + 26)
    else if '0' <= c <= '9' then Some(c as int - '0' as int + 52)
    else if c == '+' then Some(62)
    else if c == '/' then Some(63)
    else None
  }

  // Three bytes are four groups of six bits.
  function First(a: byte): sextet { a / 4 }
  function Second(a: byte, b: byte): sextet { a % 4 * 16 + b / 16 }
  function Third(b: byte, c: byte): sextet { b % 16 * 4 + c / 64 }
  function Fourth(c: byte): sextet { c % 64 }

  function Encode(bytes: seq<byte>): string {
    if |bytes| == 0 then ""
    else if |bytes| == 1 then [Letter(First(bytes[0])), Letter(Second(bytes[0], 0)), '=', '=']
    else if |bytes| == 2 then
      [Letter(First(bytes[0])), Letter(Second(bytes[0], bytes[1])), Letter(Third(bytes[1], 0)), '=']
    else
      [Letter(First(bytes[0])), Letter(Second(bytes[0], bytes[1])), Letter(Third(bytes[1], bytes[2])),
       Letter(Fourth(bytes[2]))] + Encode(bytes[3..])
  }

  /** Where the decoder stands within four letters: how many it has read, the bits not yet written out,
      and how many '=' it has just seen. */
  datatype Quad = Start | One(left: int) | Two(left: int, pads: nat) | Three(left: int)

  predicate Fits(q: Quad) {
    match q
    case Start => true
    case One(left) => 0 <= left < 64
    case Two(left, pads) => 0 <= left < 16 && pads < 2
    case Three(left) => 0 <= left < 4
  }

  /** Read one letter: what is written out, and where that leads. */
  function Read(q: Quad, v: sextet): (r: (seq<byte>, Quad))
    requires Fits(q)
    ensures Fits(r.1)
  {
    match q
    case Start => ([], One(v))
    case One(left) => ([left * 4 + v / 16], Two(v % 16, 0))
    case Two(left, _) => ([left * 16 + v / 4], Three(v % 4))
    case Three(left) => ([left * 64 + v], Start)
  }

  /** The bytes decoded from `s` on, or None for a text that ends within four letters. */
  function DecodeFrom(q: Quad, s: string): Option<seq<byte>>
    requires Fits(q)
    decreases |s|
  {
    if s == "" then (if q.Start? then Some([]) else None)
    else if s[0] == '=' then
      match q
      case Start => DecodeFrom(q, s[1..])
      case One(_) => DecodeFrom(q, s[1..])
      case Two(left, pads) => if pads == 1 then Some([]) else DecodeFrom(Two(left, 1), s[1..])
      case Three(_) => Some([])
    else
      match Value(s[0])
      case None => DecodeFrom(q, s[1..])
      case Some(v) =>
        var (written, next) := Read(q, v);
        Prepend(written, DecodeFrom(next, s[1..]))
  }

  function Prepend(written: seq<byte>, rest: Option<seq<byte>>): Option<seq<byte>> {
    match rest
    case None => None
    case Some(bytes) => Some(written + bytes)
  }

  function Decode(s: string): Option<seq<byte>> {
    if exists i :: 0 <= i < |s| && s[i] as int >= 128 then None else DecodeFrom(Start, s)
  }

  /** Reading one letter of an encoding. */
  lemma DecodeLetter(q: Quad, v: sextet, s: string)
    requires Fits(q)
    ensures DecodeFrom(q, [Letter(v)] + s) == Prepend(Read(q, v).0, DecodeFrom(Read(q, v).1, s))
  {
    assert Value(Letter(v)) == Some(v) && Letter(v) != '=';
    assert ([Letter(v)] + s)[1..] == s;
  }

  lemma PrependTwice(first: seq<byte>, second: seq<byte>, rest: Option<seq<byte>>)
    ensures Prepend(first, Prepend(second, rest)) == Prepend(first + second, rest)
  {
    if rest.Some? {
      assert first + (second + rest.value) == first + second + rest.value;
    }
  }

  lemma SixBitGroups(a: byte, b: byte, c: byte)
    ensures Read(One(First(a)), Second(a, b)) == ([a], Two(b / 16, 0))
    ensures Read(Two(b / 16, 0), Third(b, c)) == ([b], Three(c / 64))
    ensures Read(Three(c / 64), Fourth(c)) == ([c], Start)
  {
  }

  lemma {:induction false} DecodeFirstLetter(v: sextet, s: string)
    ensures DecodeFrom(Start, [Letter(v)] + s) == DecodeFrom(One(v), s)
  {
    DecodeLetter(Start, v, s);
    var rest := DecodeFrom(One(v), s);
    assert rest.Some? ==> [] + rest.value == rest.value;
  }

  lemma {:induction false} DecodeSecondLetter(a: byte, b: byte, s: string)
    ensures DecodeFrom(One(First(a)), [Letter(Second(a, b))] + s) == Prepend([a], DecodeFrom(Two(b / 16, 0), s))
  {
    SixBitGroups(a, b, 0);
    DecodeLetter(One(First(a)), Second(a, b), s);
  }

  lemma {:induction false} DecodeTwoLetters(a: byte, b: byte, s: string)
    ensures DecodeFrom(Start, [Letter(First(a)), Letter(Second(a, b))] + s)
            == Prepend([a], DecodeFrom(Two(b / 16, 0), s))
  {
    var x, y := Letter(First(a)), Letter(Second(a, b));
    calc {
      DecodeFrom(Start, [x, y] + s);
      { assert [x, y] + s == [x] + ([y] + s); }
      DecodeFrom(Start, [x] + ([y] + s));
      { DecodeFirstLetter(First(a), [y] + s); }
      DecodeFrom(One(First(a)), [y] + s);
      { DecodeSecondLetter(a, b, s); }
      Prepend([a], DecodeFrom(Two(b / 16, 0), s));
    }
  }

  lemma DecodeLastTwoLetters(b: byte, c: byte, s: string)
    ensures DecodeFrom(Two(b / 16, 0), [Letter(Third(b, c)), Letter(Fourth(c))] + s)
            == Prepend([b, c], DecodeFrom(Start, s))
  {
    SixBitGroups(0, b, c);
    DecodeLetter(Two(b / 16, 0), Third(b, c), [Letter(Fourth(c))] + s);
    DecodeLetter(Three(c / 64), Fourth(c), s);
    PrependTwice([b], [c], DecodeFrom(Start, s));
    assert [Letter(Third(b, c)), Letter(Fourth(c))] + s == [Letter(Third(b, c))] + ([Letter(Fourth(c))] + s);
    assert [b] + [c] == [b, c];
  }

  lemma {:induction false} DecodeFourLetters(a: byte, b: byte, c: byte, s: string)
    ensures
      DecodeFrom(Start, [Letter(First(a)), Letter(Second(a, b)), Letter(Third(b, c)), Letter(Fourth(c))] + s)
      == Prepend([a, b, c], DecodeFrom(Start, s))
  {
    var w, x, y, z := Letter(First(a)), Letter(Second(a, b)), Letter(Third(b, c)), Letter(Fourth(c));
    calc {
      DecodeFrom(Start, [w, x, y, z] + s);
      { assert [w, x, y, z] + s == [w, x] + ([y, z] + s); }
      DecodeFrom(Start, [w, x] + ([y, z] + s));
      { DecodeTwoLetters(a, b, [y, z] + s); }
      Prepend([a], DecodeFrom(Two(b / 16, 0), [y, z] + s));
      { DecodeLastTwoLetters(b, c, s); }
      Prepend([a], Prepend([b, c], DecodeFrom(Start, s)));
      { PrependTwice([a], [b, c], DecodeFrom(Start, s)); assert [a] + [b, c] == [a, b, c]; }
      Prepend([a, b, c], DecodeFrom(Start, s));
    }
  }

  lemma PadsEnd(q: Quad, s: string)
    requires Fits(q) && s != "" && s[0] == '='
    requires q.Three? || (q.Two? && |s| > 1 && s[1] == '=')
    ensures DecodeFrom(q, s) == Some([])
  {
    if q.Two? && q.pads == 0 {
      assert s[1..][0] == '=';
    }
  }

  lemma {:induction false} DecodeThirdLetter(b: byte, c: byte, s: string)
    requires s != "" && s[0] == '='
    ensures DecodeFrom(Two(b / 16, 0), [Letter(Third(b, c))] + s) == Some([b])
  {
    SixBitGroups(0, b, c);
    DecodeLetter(Two(b / 16, 0), Third(b, c), s);
    PadsEnd(Three(c / 64), s);
    assert [b] + [] == [b];
  }

  lemma {:induction false} DecodeThreeLetters(a: byte, b: byte, c: byte, s: string)
    requires s != "" && s[0] == '='
    ensures DecodeFrom(Start, [Letter(First(a)), Letter(Second(a, b)), Letter(Third(b, c))] + s) == Some([a, b])
  {
    var w, x, y := Letter(First(a)), Letter(Second(a, b)), Letter(Third(b, c));
    calc {
      DecodeFrom(Start, [w, x, y] + s);
      { assert [w, x, y] + s == [w, x] + ([y] + s); }
      DecodeFrom(Start, [w, x] + ([y] + s));
      { DecodeTwoLetters(a, b, [y] + s); }
      Prepend([a], DecodeFrom(Two(b / 16, 0), [y] + s));
      { DecodeThirdLetter(b, c, s); }
      Prepend([a], Some([b]));
      { assert [a] + [b] == [a, b]; }
      Some([a, b]);
    }
  }

  lemma {:induction false} DecodeTwoBytes(bytes: seq<byte>)
    requires |bytes| == 2
    ensures DecodeFrom(Start, Encode(bytes)) == Some(bytes)
  {
    var s := Encode(bytes);
    DecodeThreeLetters(bytes[0], bytes[1], 0, s[3..]);
    assert s == [Letter(First(bytes[0])), Letter(Second(bytes[0], bytes[1])), Letter(Third(bytes[1], 0))] + s[3..];
    assert bytes == [bytes[0], bytes[1]];
  }

  lemma {:induction false} DecodeOneByte(bytes: seq<byte>)
    requires |bytes| == 1
    ensures DecodeFrom(Start, Encode(bytes)) == Some(bytes)
  {
    var a, s := bytes[0], Encode(bytes);
    DecodeTwoLetters(a, 0, s[2..]);
    PadsEnd(Two(0, 0), s[2..]);
    assert s == [Letter(First(a)), Letter(Second(a, 0))] + s[2..];
    assert bytes == [a] + [];
  }

  lemma {:induction false} EncodedDecodes(bytes: seq<byte>)
    ensures DecodeFrom(Start, Encode(bytes)) == Some(bytes)
  {
    if |bytes| == 1 {
      DecodeOneByte(bytes);
    } else if |bytes| == 2 {
      DecodeTwoBytes(bytes);
    } else if |bytes| > 2 {
      EncodedDecodes(bytes[3..]);
      DecodeFourLetters(bytes[0], bytes[1], bytes[2], Encode(bytes[3..]));
      assert bytes == [bytes[0], bytes[1], bytes[2]] + bytes[3..];
    }
  }

  lemma {:induction false} EncodedLetters(bytes: seq<byte>)
    ensures forall i :: 0 <= i < |Encode(bytes)| ==> Encode(bytes)[i] != ':' && Encode(bytes)[i] as int < 128
  {
    if |bytes| > 2 {
      EncodedLetters(bytes[3..]);
    }
  }

  lemma {:induction false} EncodedLength(bytes: seq<byte>)
    ensures |Encode(bytes)| == (|bytes| + 2) / 3 * 4
  {
    if |bytes| > 2 {
      EncodedLength(bytes[3..]);
      ThreeFewer(|bytes|);
    }
  }

  lemma ThreeFewer(n: nat)
    requires n > 2
    ensures (n + 2) / 3 == (n - 3 + 2) / 3 + 1
  {
  }

  /** Every sequence of bytes survives encoding and decoding; its encoding contains no colon and has four
      letters for every three bytes begun. */
  lemma {:induction false} RoundTrip(bytes: seq<byte>)
    ensures Decode(Encode(bytes)) == Some(bytes)
    ensures ':' !in Encode(bytes) && |Encode(bytes)| == (|bytes| + 2) / 3 * 4
  {
    EncodedDecodes(bytes);
    EncodedLetters(bytes);
    EncodedLength(bytes);
  }

  /** The first test vectors of section 10 of RFC 4648, "f", "fo" and "foo", and the last two letters. */
  lemma TestVectors()
    ensures Encode([102]) == "Zg==" && Encode([102, 111]) == "Zm8=" && Encode([102, 111, 111]) == "Zm9v"
    ensures Encode([251, 239, 255]) == "++//"
  {
    assert [102, 111, 111][3..] == [] && [251, 239, 255][3..] == [];
  }

  /** The alphabet of Table 1 of RFC 4648, stretch by stretch. */
  lemma Alphabet(v: sextet)
    ensures Letter(0) == 'A' && Letter(26) == 'a' && Letter(52) == '0' && Letter(62) == '+' && Letter(63) == '/'
    ensures v != 25 && v != 51 && v < 61 ==> Letter(v + 1) as int == Letter(v) as int + 1
  {
  }

  /** The characters the decoder looks at. */
  function Significant(s: string): string {
    if s == "" then ""
    else (if s[0] == '=' || Value(s[0]).Some? then [s[0]] else "") + Significant(s[1..])
  }

  /** Everything else in the text makes no difference. */
  lemma {:induction false} OthersAreSkipped(q: Quad, s: string)
    requires Fits(q)
    ensures DecodeFrom(q, s) == DecodeFrom(q, Significant(s))
    decreases |s|
  {
    if s != "" {
      var rest := s[1..];
      if s[0] == '=' || Value(s[0]).Some? {
        assert Significant(s)[1..] == Significant(rest);
      }
      if s[0] == '=' {
        match q
        case Two(left, pads) => if pads == 0 { OthersAreSkipped(Two(left, 1), rest); }
        case _ => OthersAreSkipped(q, rest);
      } else if Value(s[0]).Some? {
        OthersAreSkipped(Read(q, Value(s[0]).value).1, rest);
      } else {
        assert Significant(s) == Significant(rest);
        OthersAreSkipped(q, rest);
      }
    }
  }
}
