/** Line framing and decimal numbers, as the server's and the client's stream
    readers and writers see them. A stream is the sequence of characters not
    read yet; a line ends at "\n". */
module Wire {

  datatype Option<+T> = None | Some(value: T)

  datatype Result<+T, +E> = Success(value: T) | Failure(error: E)

  datatype Outcome<+E> = Pass | Fail(error: E)

  /** Largest values plus one of C#'s `ulong` and `int`. */
  const ULONG_LIMIT: nat := 0x1_0000_0000_0000_0000
  const INT_LIMIT: nat := 0x8000_0000

  /** The message .NET gives when `ulong.Parse`/`int.Parse` refuses its input. */
  const MalformedNumber: string := "Input string was not in a correct format."

  /** What `StreamWriter.WriteLine(s)` puts on the stream. */
  function Line(s: string): string
  {
    s + "\n"
  }

  /** `StreamReader.ReadLine`: None at end of stream (C#'s null); otherwise the
      characters before the first newline and the stream after that newline.
      A last line without a newline is returned whole. */
  function ReadLine(input: seq<char>): (r: Option<(string, seq<char>)>)
    ensures r.None? <==> input == []
    ensures r.Some? ==> '\n' !in r.value.0 && |r.value.1| < |input|
    ensures r.Some? ==> input == Line(r.value.0) + r.value.1 || (input == r.value.0 && r.value.1 == [])
  {
    if input == [] then None
    else if input[0] == '\n' then Some(([], input[1..]))
    else match ReadLine(input[1..])
      case None => Some((input, []))
      case Some((line, rest)) => Some(([input[0]] + line, rest))
  }

  /** `ReadLine` as the C# caller sees it: the line or null, and the stream left. */
  function NextLine(input: seq<char>): (r: (Option<string>, seq<char>))
    ensures r.0.None? <==> input == []
    ensures |r.1| <= |input|
  {
    match ReadLine(input)
    case None => (None, input)
    case Some((line, rest)) => (Some(line), rest)
  }

  /** Reading back a line that was written with `WriteLine` yields it unchanged. */
  lemma {:induction false} ReadLineOfLine(s: string, rest: seq<char>)
    requires '\n' !in s
    ensures ReadLine(Line(s) + rest) == Some((s, rest))
    ensures NextLine(Line(s) + rest) == (Some(s), rest)
  {
    if s == [] {
      assert Line(s) + rest == ['\n'] + rest;
    } else {
      assert (Line(s) + rest)[1..] == Line(s[1..]) + rest;
      ReadLineOfLine(s[1..], rest);
      assert [s[0]] + s[1..] == s;
    }
  }

  /** Reading exactly `length` characters (a document body): None when the
      stream ends first. */
  function ReadDocument(input: seq<char>, length: nat): (r: Option<(string, seq<char>)>)
    ensures r.None? <==> |input| < length
    ensures r.Some? ==> |r.value.0| == length && input == r.value.0 + r.value.1
  {
    if |input| < length then None else Some((input[..length], input[length..]))
  }

  predicate IsDigit(c: char)
  {
    '0' <= c <= '9'
  }

  predicate AllDigits(s: string)
  {
    forall i :: 0 <= i < |s| ==> IsDigit(s[i])
  }

  /** A digit string as `ToString()` writes it: no leading zero except "0" itself. */
  predicate Canonical(s: string)
  {
    s != [] && AllDigits(s) && (|s| > 1 ==> s[0] != '0')
  }

  function DigitChar(d: nat): (c: char)
    requires d < 10
    ensures IsDigit(c) && c as int - '0' as int == d
  {
    ('0' as int + d) as char
  }

  /** `n.ToString()` for an unsigned number: decimal digits, most significant first. */
  function Decimal(n: nat): (s: string)
    ensures Canonical(s)
  {
    if n < 10 then [DigitChar(n)] else Decimal(n / 10) + [DigitChar(n % 10)]
  }

  /** The number a digit string denotes. */
  function DigitsValue(s: string): nat
    requires AllDigits(s)
  {
    if s == [] then 0 else DigitsValue(s[..|s| - 1]) * 10 + (s[|s| - 1] as int - '0' as int)
  }

  /** `ulong.Parse` (limit ULONG_LIMIT) or `int.Parse` (limit INT_LIMIT) on plain
      digit strings: None wherever the parse throws. */
  function ParseNumber(s: string, limit: nat): (r: Option<nat>)
    ensures r.Some? ==> s != [] && AllDigits(s) && r.value < limit
  {
    if s != [] && AllDigits(s) && DigitsValue(s) < limit then Some(DigitsValue(s)) else None
  }

  /** Parsing an argument line; a missing line (null) does not parse. */
  function ParseLine(line: Option<string>, limit: nat): (r: Option<nat>)
    ensures r.Some? ==> line.Some? && r.value < limit
  {
    match line
    case None => None
    case Some(s) => ParseNumber(s, limit)
  }

  lemma {:induction false} DecimalValue(n: nat)
    ensures DigitsValue(Decimal(n)) == n
  {
    if n >= 10 {
      var s := Decimal(n);
      assert s[..|s| - 1] == Decimal(n / 10);
      DecimalValue(n / 10);
    }
  }

  /** Parsing what `ToString()` wrote gives the number back. */
  lemma ParseDecimal(n: nat, limit: nat)
    requires n < limit
    ensures ParseNumber(Decimal(n), limit) == Some(n)
  {
    DecimalValue(n);
  }

  lemma {:induction false} LeadingDigitPositive(s: string)
    requires s != [] && AllDigits(s) && s[0] != '0'
    ensures DigitsValue(s) > 0
  {
    if |s| > 1 {
      LeadingDigitPositive(s[..|s| - 1]);
    }
  }

  /** Conversely, `ToString()` of a parsed canonical digit string is that string. */
  lemma {:induction false} DecimalOfParse(s: string)
    requires Canonical(s)
    ensures Decimal(DigitsValue(s)) == s
  {
    var n := DigitsValue(s);
    var d := s[|s| - 1] as int - '0' as int;
    if |s| == 1 {
      assert n == d;
      assert [DigitChar(d)] == s;
    } else {
      var p := s[..|s| - 1];
      assert Canonical(p);
      LeadingDigitPositive(p);
      DecimalOfParse(p);
      assert n == DigitsValue(p) * 10 + d;
      assert n / 10 == DigitsValue(p) && n % 10 == d;
      assert Decimal(n) == Decimal(DigitsValue(p)) + [DigitChar(d)];
      assert p + [s[|s| - 1]] == s;
    }
  }
}
