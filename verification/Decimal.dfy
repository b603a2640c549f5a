/** Whole numbers as Python prints them in an f-string and reads them back with `int`. */
module Decimal {
  import opened Common

  function Digit(d: nat): char
    requires d < 10
  {
    ('0' as int + d) as char
  }

  predicate IsDigit(c: char) {
    '0' <= c <= '9'
  }

  function PrintNat(n: nat): string {
    if n < 10 then [Digit(n)] else PrintNat(n / 10) + [Digit(n % 10)]
  }

  function Print(n: int): string {
    if n < 0 then "-" + PrintNat(-n) else PrintNat(n)
  }

  /** Digits, with single underscores allowed between them. */
  function ParseNat(s: string): Option<nat> {
    if s == "" || !IsDigit(s[|s| - 1]) then None
    else
      var d := s[|s| - 1] as int - '0' as int;
      if |s| == 1 then Some(d)
      else
        match ParseNat(if s[|s| - 2] == '_' then s[..|s| - 2] else s[..|s| - 1])
        case None => None
        case Some(n) => Some(10 * n + d)
  }

  predicate IsSpace(c: char) {
    c == ' ' || '\t' <= c <= '\r' || 28 <= c as int <= 31
  }

  function Strip(s: string): string
    decreases |s|
  {
    if s != "" && IsSpace(s[0]) then Strip(s[1..])
    else if s != "" && IsSpace(s[|s| - 1]) then Strip(s[..|s| - 1])
    else s
  }

  function ParseSigned(s: string): Option<int> {
    if s != "" && (s[0] == '-' || s[0] == '+') then
      match ParseNat(s[1..])
      case None => None
      case Some(n) => (if s[0] == '-' then Some(-(n as int)) else Some(n as int))
    else ParseNat(s)
  }

  function Parse(s: string): Option<int> {
    ParseSigned(Strip(s))
  }

  lemma {:induction false} PrintedDigits(n: nat)
    ensures PrintNat(n) != ""
    ensures forall i :: 0 <= i < |PrintNat(n)| ==> IsDigit(PrintNat(n)[i])
  {
    if n >= 10 {
      PrintedDigits(n / 10);
    }
  }

  lemma {:induction false} PrintedNatParses(n: nat)
    ensures ParseNat(PrintNat(n)) == Some(n)
  {
    var s := PrintNat(n);
    if n >= 10 {
      PrintedNatParses(n / 10);
      PrintedDigits(n / 10);
      assert s[..|s| - 1] == PrintNat(n / 10);
      assert IsDigit(s[|s| - 2]);
    }
  }

  /** Every number is read back as it was printed. */
  lemma PrintedParses(n: int)
    ensures Parse(Print(n)) == Some(n)
  {
    var m: nat := if n < 0 then -n else n;
    PrintedDigits(m);
    PrintedNatParses(m);
    var s := Print(n);
    assert IsDigit(s[|s| - 1]);
    assert n < 0 ==> s[0] == '-' && s[1..] == PrintNat(m);
    assert n >= 0 ==> IsDigit(s[0]);
    assert Strip(s) == s;
  }

  lemma SignedParses(n: nat)
    ensures Parse("+" + PrintNat(n)) == Some(n) && Parse("-" + PrintNat(n)) == Some(-(n as int))
  {
    var s := PrintNat(n);
    PrintedDigits(n);
    PrintedNatParses(n);
    assert ("+" + s)[1..] == s && ("-" + s)[1..] == s;
    assert Strip("+" + s) == "+" + s && Strip("-" + s) == "-" + s;
  }

  lemma UnderscoredParses(s: string, n: nat, d: nat)
    requires s != "" && IsDigit(s[0]) && ParseNat(s) == Some(n) && d < 10
    ensures Parse(s + "_" + [Digit(d)]) == Some(10 * n + d)
    ensures Parse(s + "__" + [Digit(d)]) == None && Parse(s + "_") == None
  {
    var once, twice := s + "_" + [Digit(d)], s + "__" + [Digit(d)];
    assert once[..|once| - 2] == s && twice[..|twice| - 2] == s + "_";
    assert Strip(once) == once && Strip(twice) == twice && Strip(s + "_") == s + "_";
    assert ParseNat(s + "_") == None;
  }

  /** A sign and single underscores between digits are read too, two in a row are not. */
  lemma OtherSpellings(n: nat, d: nat)
    requires d < 10
    ensures Parse("+" + PrintNat(n)) == Some(n) && Parse("-" + PrintNat(n)) == Some(-(n as int))
    ensures Parse(PrintNat(n) + "_" + [Digit(d)]) == Some(10 * n + d)
    ensures Parse(PrintNat(n) + "__" + [Digit(d)]) == None && Parse(PrintNat(n) + "_") == None
  {
    SignedParses(n);
    PrintedDigits(n);
    PrintedNatParses(n);
    UnderscoredParses(PrintNat(n), n, d);
  }

  /** Different numbers print differently, and a printed number contains no separator. */
  lemma PrintIsInjective(m: int, n: int)
    ensures Print(m) == Print(n) ==> m == n
    ensures forall c :: c in Print(n) ==> IsDigit(c) || c == '-'
  {
    PrintedParses(m);
    PrintedParses(n);
    PrintedDigits(if n < 0 then -n else n);
  }

  lemma FirstPartIsNoShorter(a: string, b: string, c: string, d: string)
    requires ':' !in c && a + ":" + b == c + ":" + d
    ensures |a| >= |c|
  {
    assert (a + ":" + b)[|a|] == ':';
    assert forall i :: 0 <= i < |c| ==> (c + ":" + d)[i] == c[i];
  }

  /** Two colon-separated parts can be told apart when the first contains no colon. */
  lemma JoinIsInjective(a: string, b: string, c: string, d: string)
    requires ':' !in a && ':' !in c && a + ":" + b == c + ":" + d
    ensures a == c && b == d
  {
    FirstPartIsNoShorter(a, b, c, d);
    FirstPartIsNoShorter(c, d, a, b);
    assert a == (a + ":" + b)[..|a|] && c == (c + ":" + d)[..|c|];
    assert b == (a + ":" + b)[|a| + 1..] && d == (c + ":" + d)[|c| + 1..];
  }
}
