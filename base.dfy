/// Value types shared by all modules, and the few pieces of Go's standard
/// library the page-file and diff code relies on, stated in Dafny's terms:
/// unicode.IsSpace / unicode.IsDigit, strings.TrimSpace, strings.Contains,
/// strings.ReplaceAll for "+", strconv.ParseInt(s, 10, 64) (which is also what
/// strconv.Atoi does on a 64-bit platform), url.QueryUnescape and the line
/// splitting of a bufio.Scanner.
///
/// Strings are sequences of characters (Go runes); times are Unix seconds.
module Base {

  datatype Option<+T> = None | Some(value: T)

  datatype Result<+T, +E> = Ok(value: T) | Err(error: E)

  /** The range of Go's int64 (and of int on a 64-bit platform). */
  const MinInt64: int := -0x8000_0000_0000_0000
  const MaxInt64: int := 0x7fff_ffff_ffff_ffff

  /** Go's zero time.Time{}, 0001-01-01 00:00:00 UTC, in Unix seconds. */
  const ZeroTime: int := -62135596800

  type byte = x: int | 0 <= x < 256

  /** A net.IP: a byte slice, empty when nil. */
  type IP = seq<byte>

  // ---------------------------------------------------------------------
  // Characters
  // ---------------------------------------------------------------------

  /** unicode.IsSpace: the Unicode White_Space property. */
  predicate IsSpace(c: char)
  {
    || c == ' ' || '\t' <= c <= '\r' || c == '\U{85}' || c == '\U{A0}'
    || c == '\U{1680}' || '\U{2000}' <= c <= '\U{200A}' || c == '\U{2028}'
    || c == '\U{2029}' || c == '\U{202F}' || c == '\U{205F}' || c == '\U{3000}'
  }

  /** unicode.IsDigit, restricted to the ASCII digits. */
  predicate IsDigit(c: char)
  {
    '0' <= c <= '9'
  }

  predicate AllDigits(s: string)
  {
    forall k :: 0 <= k < |s| ==> IsDigit(s[k])
  }

  // ---------------------------------------------------------------------
  // strings.TrimSpace, strings.Contains, strings.ReplaceAll(s, "+", "%2b")
  // ---------------------------------------------------------------------

  /** Drops the leading white space. */
  function TrimLeft(s: string): string
  {
    if s != [] && IsSpace(s[0]) then TrimLeft(s[1..]) else s
  }

  /** TrimLeft drops a prefix of white space and stops at the first other
      character. */
  lemma {:induction false} TrimLeftSpec(s: string)
    ensures var r := TrimLeft(s);
      && |r| <= |s| && r == s[|s| - |r|..]
      && (forall k :: 0 <= k < |s| - |r| ==> IsSpace(s[k]))
      && (r == [] || !IsSpace(r[0]))
  {
    if s != [] && IsSpace(s[0]) {
      TrimLeftSpec(s[1..]);
      var r := TrimLeft(s);
      forall k | 0 <= k < |s| - |r| ensures IsSpace(s[k]) {
        if k > 0 { assert s[k] == s[1..][k - 1]; }
      }
    }
  }

  /** Drops the trailing white space. */
  function TrimRight(s: string): string
  {
    if s != [] && IsSpace(s[|s| - 1]) then TrimRight(s[..|s| - 1]) else s
  }

  /** TrimRight drops a suffix of white space and stops at the last other
      character. */
  lemma {:induction false} TrimRightSpec(s: string)
    ensures var r := TrimRight(s);
      && |r| <= |s| && r == s[..|r|]
      && (forall k :: |r| <= k < |s| ==> IsSpace(s[k]))
      && (r == [] || !IsSpace(r[|r| - 1]))
  {
    if s != [] && IsSpace(s[|s| - 1]) {
      TrimRightSpec(s[..|s| - 1]);
      var r := TrimRight(s);
      forall k | |r| <= k < |s| ensures IsSpace(s[k]) {
        if k < |s| - 1 { assert s[k] == s[..|s| - 1][k]; }
      }
    }
  }

  /** strings.TrimSpace: the slice of s between its leading and trailing white space. */
  function TrimSpace(s: string): string
  {
    TrimRight(TrimLeft(s))
  }

  /** TrimSpace(s) is the slice of s that starts after its leading white
      space, everything outside that slice is white space, and the slice
      neither starts nor ends with white space. */
  lemma {:induction false} TrimSpaceIsInnerSlice(s: string)
    ensures var r, i := TrimSpace(s), |s| - |TrimLeft(s)|;
            && 0 <= i && i + |r| <= |s| && r == s[i..i + |r|]
            && (forall k :: 0 <= k < i ==> IsSpace(s[k]))
            && (forall k :: i + |r| <= k < |s| ==> IsSpace(s[k]))
            && (r == [] || (!IsSpace(r[0]) && !IsSpace(r[|r| - 1])))
  {
    var l := TrimLeft(s);
    TrimLeftSpec(s);
    TrimRightSpec(l);
    var r := TrimRight(l);
    var i := |s| - |l|;
    SpaceAfterSlice(s, i, l, |r|);
    if r != [] {
      assert r[0] == l[0];
    }
    assert r == s[i..i + |r|];
  }

  /** White space after position n of a suffix l of s lies in s after i + n. */
  lemma {:induction false} SpaceAfterSlice(s: string, i: nat, l: string, n: nat)
    requires i <= |s| && l == s[i..] && n <= |l|
    requires forall k :: n <= k < |l| ==> IsSpace(l[k])
    ensures forall k :: i + n <= k < |s| ==> IsSpace(s[k])
  {
    forall k | i + n <= k < |s| ensures IsSpace(s[k]) {
      assert s[k] == l[k - i];
    }
  }

  /** strings.HasPrefix. */
  predicate HasPrefix(s: string, prefix: string)
  {
    |prefix| <= |s| && s[..|prefix|] == prefix
  }

  /** strings.Contains. */
  predicate Contains(s: string, sub: string)
    decreases |s|
  {
    HasPrefix(s, sub) || (s != [] && Contains(s[1..], sub))
  }

  /** Contains(s, sub) holds exactly when sub starts at some index of s. */
  lemma {:induction false} ContainsIffSlice(s: string, sub: string)
    ensures Contains(s, sub) <==> exists i :: 0 <= i <= |s| && HasPrefix(s[i..], sub)
    decreases |s|
  {
    if HasPrefix(s, sub) {
      assert s[0..] == s;
    } else if s == [] {
    } else {
      ContainsIffSlice(s[1..], sub);
      if exists i :: 0 <= i <= |s| && HasPrefix(s[i..], sub) {
        var i :| 0 <= i <= |s| && HasPrefix(s[i..], sub);
        assert i != 0;
        assert s[1..][i - 1..] == s[i..];
      }
      if exists j :: 0 <= j <= |s[1..]| && HasPrefix(s[1..][j..], sub) {
        var j :| 0 <= j <= |s[1..]| && HasPrefix(s[1..][j..], sub);
        assert s[1..][j..] == s[j + 1..];
      }
    }
  }

  /** strings.ReplaceAll(s, "+", "%2b"). */
  function EscapePlus(s: string): (r: string)
    ensures '+' !in r
  {
    if s == [] then []
    else if s[0] == '+' then "%2b" + EscapePlus(s[1..])
    else [s[0]] + EscapePlus(s[1..])
  }

  /** Each "+" grows by two characters, and nothing else changes length. */
  lemma {:induction false} EscapePlusLength(s: string)
    ensures |EscapePlus(s)| == |s| + 2 * multiset(s)['+']
  {
    if s != [] {
      assert s == [s[0]] + s[1..];
      EscapePlusLength(s[1..]);
    }
  }

  // ---------------------------------------------------------------------
  // strconv.Quote, as the error messages of strconv and net/url use it
  // ---------------------------------------------------------------------

  /** strconv.IsPrint: letters, marks, numbers, punctuation, symbols and
      the ASCII space. Below U+00A1 this is exact; above it every rune
      except U+00AD and the Unicode spaces counts as printable. */
  predicate IsPrint(c: char)
  {
    && ' ' <= c && c != '\U{7F}' && !('\U{80}' <= c <= '\U{A0}') && c != '\U{AD}'
    && (c == ' ' || !IsSpace(c))
  }

  /** A rune strconv.Quote writes as it is. */
  predicate PlainRune(c: char)
  {
    IsPrint(c) && c != '"' && c != '\\'
  }

  /** A lower-case hexadecimal digit. */
  function HexDigit(n: nat): (c: char)
    requires n < 16
    ensures IsHex(c) && HexValue(c) == n
  {
    if n < 10 then ('0' as int + n) as char else ('a' as int + (n - 10)) as char
  }

  /** Four hexadecimal digits, the most significant first. */
  function Hex4(n: nat): (r: string)
    requires n < 0x1_0000
    ensures |r| == 4 && forall k :: 0 <= k < |r| ==> IsHex(r[k])
  {
    [HexDigit(n / 0x1000), HexDigit(n / 0x100 % 16), HexDigit(n / 0x10 % 16), HexDigit(n % 16)]
  }

  /** One rune as strconv.Quote writes it: a backslash before '"' and '\',
      a printable rune as it is, the C escapes for the control characters
      that have one, \xXX for the other ASCII controls and \uXXXX for the
      rest. */
  function QuoteRune(c: char): (r: string)
    ensures PlainRune(c) ==> r == [c]
    ensures !PlainRune(c) ==> |r| >= 2 && r[0] == '\\'
    ensures forall k :: 0 <= k < |r| ==> IsPrint(r[k])
  {
    if c == '"' || c == '\\' then ['\\', c]
    else if IsPrint(c) then [c]
    else if c == '\U{7}' then "\\a"
    else if c == '\U{8}' then "\\b"
    else if c == '\U{C}' then "\\f"
    else if c == '\n' then "\\n"
    else if c == '\r' then "\\r"
    else if c == '\t' then "\\t"
    else if c == '\U{B}' then "\\v"
    else if c < ' ' || c == '\U{7F}' then "\\x" + [HexDigit(c as int / 16), HexDigit(c as int % 16)]
    else "\\u" + Hex4(c as int)
  }

  /** The runes of s, each as strconv.Quote writes it. */
  function QuoteBody(s: string): (r: string)
    ensures |r| >= |s|
    ensures forall k :: 0 <= k < |r| ==> IsPrint(r[k])
  {
    if s == [] then []
    else
      var h, t := QuoteRune(s[0]), QuoteBody(s[1..]);
      assert forall k :: |h| <= k < |h + t| ==> (h + t)[k] == t[k - |h|];
      h + t
  }

  /** strconv.Quote: s in double quotes, escaped so that the result holds
      printable runes only. */
  function Quote(s: string): (r: string)
    ensures |r| >= |s| + 2 && r[0] == '"' && r[|r| - 1] == '"'
    ensures forall k :: 0 <= k < |r| ==> IsPrint(r[k])
  {
    "\"" + QuoteBody(s) + "\""
  }

  /** Quoting leaves the text between the quotes unchanged exactly when
      every rune of s is plain. */
  lemma {:induction false} QuoteBodyIdentity(s: string)
    ensures QuoteBody(s) == s <==> forall k :: 0 <= k < |s| ==> PlainRune(s[k])
  {
    if s != [] {
      var t := s[1..];
      QuoteBodyIdentity(t);
      if PlainRune(s[0]) {
        assert s == [s[0]] + t;
        if QuoteBody(t) == t {
          forall k | 0 <= k < |s| ensures PlainRune(s[k]) {
            if k > 0 { assert s[k] == t[k - 1]; }
          }
        } else {
          assert QuoteBody(s) != s by {
            assert QuoteBody(s)[1..] == QuoteBody(t);
          }
          var k :| 0 <= k < |t| && !PlainRune(t[k]);
          assert !PlainRune(s[k + 1]);
        }
      } else {
        assert |QuoteBody(s)| > |s|;
      }
    }
  }

  /** A tab inside a quoted text is written as "\t". */
  lemma QuoteTab()
    ensures Quote("\t1") == "\"\\t1\""
  {
    assert QuoteBody("1") == "1" by { assert PlainRune('1'); }
    assert QuoteBody("\t1") == "\\t" + QuoteBody("1");
  }

  // ---------------------------------------------------------------------
  // strconv.ParseInt(s, 10, 64) and its inverse on naturals
  // ---------------------------------------------------------------------

  function DigitValue(c: char): nat
    requires IsDigit(c)
  {
    c as int - '0' as int
  }

  function DigitsValue(s: string): nat
    requires AllDigits(s)
  {
    if s == [] then 0 else 10 * DigitsValue(s[..|s| - 1]) + DigitValue(s[|s| - 1])
  }

  /** strconv.ParseInt(s, 10, 64): an optional sign, then at least one
      decimal digit, and the value must fit in an int64. */
  function ParseInt(s: string): (r: Option<int>)
    ensures r.Some? ==> MinInt64 <= r.value <= MaxInt64
    ensures r.Some? ==> s != [] && (IsDigit(s[0]) || s[0] == '+' || s[0] == '-')
    ensures r.Some? ==> AllDigits(s[1..])
  {
    var signed := s != [] && (s[0] == '+' || s[0] == '-');
    var digits := if signed then s[1..] else s;
    if digits == [] || !AllDigits(digits) then None
    else
      var n: int := DigitsValue(digits);
      var v := if signed && s[0] == '-' then -n else n;
      if MinInt64 <= v <= MaxInt64 then Some(v) else None
  }

  /** Text ParseInt reads as a number, whether or not it fits in an int64. */
  predicate IsIntSyntax(s: string)
  {
    var digits := if s != [] && (s[0] == '+' || s[0] == '-') then s[1..] else s;
    digits != [] && AllDigits(digits)
  }

  /** strconv.Atoi on a 64-bit platform: the value ParseInt gives, or the
      *strconv.NumError it reports, as its Error method prints it. */
  function Atoi(s: string): (r: Result<int, string>)
    ensures r.Ok? ==> MinInt64 <= r.value <= MaxInt64
    ensures r.Err? && IsIntSyntax(s) ==> r.error == "strconv.Atoi: parsing " + Quote(s) + ": value out of range"
    ensures r.Err? && !IsIntSyntax(s) ==> r.error == "strconv.Atoi: parsing " + Quote(s) + ": invalid syntax"
  {
    match ParseInt(s)
    case Some(v) => Ok(v)
    case None =>
      Err("strconv.Atoi: parsing " + Quote(s) + ": " + if IsIntSyntax(s) then "value out of range" else "invalid syntax")
  }

  /** The *strconv.NumError strconv.ParseInt(s, 10, 64) reports, as its
      Error method prints it. */
  function ParseIntError(s: string): string
  {
    "strconv.ParseInt: parsing " + Quote(s) + ": " + if IsIntSyntax(s) then "value out of range" else "invalid syntax"
  }

  /** strconv.Itoa on naturals. */
  function Decimal(n: nat): (s: string)
    ensures s != [] && AllDigits(s)
  {
    if n < 10 then ['0' + n as char] else Decimal(n / 10) + ['0' + (n % 10) as char]
  }

  lemma {:induction false} DigitsValueOfDecimal(n: nat)
    ensures DigitsValue(Decimal(n)) == n
  {
    if n >= 10 {
      var s := Decimal(n);
      assert s[..|s| - 1] == Decimal(n / 10);
      DigitsValueOfDecimal(n / 10);
    }
  }

  /** Parsing the decimal form of an int64-sized natural gives it back. */
  lemma ParseIntOfDecimal(n: nat)
    requires n <= MaxInt64
    ensures ParseInt(Decimal(n)) == Some(n)
  {
    DigitsValueOfDecimal(n);
  }

  /** The value ParseInt gives a run of digits d, with or without a sign
      or leading zeros: d's value when it fits in an int64 ("-" allows one
      more), and None otherwise. */
  lemma ParseIntForms(d: string)
    requires d != [] && AllDigits(d)
    ensures ParseInt(d) == if DigitsValue(d) <= MaxInt64 then Some(DigitsValue(d)) else None
    ensures ParseInt("+" + d) == ParseInt(d)
    ensures var v: int := DigitsValue(d); ParseInt("-" + d) == if v <= MaxInt64 + 1 then Some(-v) else None
    ensures ParseInt("0" + d) == ParseInt(d)
  {
    assert ("+" + d)[1..] == d;
    assert ("-" + d)[1..] == d;
    DigitsValueLeadingZero(d);
  }

  lemma {:induction false} DigitsValueLeadingZero(d: string)
    requires AllDigits(d)
    ensures AllDigits("0" + d) && DigitsValue("0" + d) == DigitsValue(d)
  {
    if d != [] {
      var z := "0" + d;
      assert z[..|z| - 1] == "0" + d[..|d| - 1];
      DigitsValueLeadingZero(d[..|d| - 1]);
    }
  }

  /** Atoi reads back the decimal form of every int64-sized natural, and
      reports every larger one as out of range (DecimalQuotesPlainly: the
      quoted form is the digits between double quotes). */
  lemma AtoiOfDecimal(n: nat)
    ensures n <= MaxInt64 ==> Atoi(Decimal(n)) == Ok(n)
    ensures n > MaxInt64 ==> Atoi(Decimal(n)) == Err("strconv.Atoi: parsing " + Quote(Decimal(n)) + ": value out of range")
  {
    DigitsValueOfDecimal(n);
    ParseIntForms(Decimal(n));
    assert IsIntSyntax(Decimal(n));
  }

  /** Digits need no escaping: the quoted decimal form is the digits in
      quotes. */
  lemma DecimalQuotesPlainly(n: nat)
    ensures Quote(Decimal(n)) == "\"" + Decimal(n) + "\""
  {
    var s := Decimal(n);
    forall k | 0 <= k < |s| ensures PlainRune(s[k]) {
      assert IsDigit(s[k]);
    }
    QuoteBodyIdentity(s);
  }

  // ---------------------------------------------------------------------
  // url.QueryUnescape
  // ---------------------------------------------------------------------

  predicate IsHex(c: char)
  {
    '0' <= c <= '9' || 'a' <= c <= 'f' || 'A' <= c <= 'F'
  }

  function HexValue(c: char): (v: nat)
    requires IsHex(c)
    ensures v < 16
  {
    if '0' <= c <= '9' then c as int - '0' as int
    else if 'a' <= c <= 'f' then c as int - 'a' as int + 10
    else c as int - 'A' as int + 10
  }

  /** The *url.EscapeError for the escape at the start of s, as its Error
      method prints it: at most three characters, quoted. */
  function EscapeError(s: string): string
  {
    "invalid URL escape " + Quote(if |s| < 3 then s else s[..3])
  }

  /** The "%" at index i does not start two hexadecimal digits. */
  predicate BadEscapeAt(s: string, i: int)
  {
    0 <= i < |s| && s[i] == '%' && !(i + 2 < |s| && IsHex(s[i + 1]) && IsHex(s[i + 2]))
  }

  /** url.QueryUnescape: "%XX" becomes the character with code XX, "+"
      becomes a space, and a "%" not followed by two hexadecimal digits is an
      error, reported with the (at most three) characters from that "%" on.
      Go writes the byte XX instead; the two agree below "%80". */
  function QueryUnescape(s: string): (r: Result<string, string>)
    ensures r.Ok? ==> |r.value| <= |s|
    ensures r.Err? ==> '%' in s
    decreases |s|
  {
    if s == [] then Ok([])
    else if s[0] == '%' then
      if |s| < 3 || !IsHex(s[1]) || !IsHex(s[2]) then
        Err(EscapeError(s))
      else
        match QueryUnescape(s[3..])
        case Err(e) => Err(e)
        case Ok(t) => Ok([(16 * HexValue(s[1]) + HexValue(s[2])) as char] + t)
    else
      match QueryUnescape(s[1..])
      case Err(e) => (assert s == [s[0]] + s[1..]; Err(e))
      case Ok(t) => Ok([if s[0] == '+' then ' ' else s[0]] + t)
  }

  /** Text without "+" has nothing to escape. */
  lemma {:induction false} EscapePlusNoPlus(s: string)
    requires '+' !in s
    ensures EscapePlus(s) == s
  {
    if s != [] {
      assert s == [s[0]] + s[1..];
      EscapePlusNoPlus(s[1..]);
    }
  }

  /** With "+" escaped first, a value without "%" decodes to itself: in
      particular every "+" stays a literal "+". */
  lemma {:induction false} UnescapeKeepsPlus(s: string)
    requires '%' !in s
    ensures QueryUnescape(EscapePlus(s)) == Ok(s)
  {
    if s != [] {
      assert s == [s[0]] + s[1..];
      UnescapeKeepsPlus(s[1..]);
      var rest := EscapePlus(s[1..]);
      if s[0] == '+' {
        assert EscapePlus(s) == "%2b" + rest;
        UnescapePlusCode(rest);
      } else {
        assert EscapePlus(s) == [s[0]] + rest;
        UnescapePlain(s[0], rest);
      }
    }
  }

  /** "%2b" decodes to "+". */
  lemma UnescapePlusCode(rest: string)
    ensures QueryUnescape("%2b" + rest)
         == if QueryUnescape(rest).Ok? then Ok("+" + QueryUnescape(rest).value) else QueryUnescape(rest)
  {
    var e := "%2b" + rest;
    assert e[0] == '%' && e[1] == '2' && e[2] == 'b' && e[3..] == rest;
    assert (16 * HexValue('2') + HexValue('b')) as char == '+';
  }

  /** A character other than "%" decodes to itself, "+" to a space. */
  lemma UnescapePlain(c: char, rest: string)
    requires c != '%'
    ensures QueryUnescape([c] + rest)
         == if QueryUnescape(rest).Ok? then Ok([if c == '+' then ' ' else c] + QueryUnescape(rest).value)
            else QueryUnescape(rest)
  {
    assert ([c] + rest)[1..] == rest;
  }

  /** A run of characters without "%" and "+" decodes to itself, in front
      of whatever the rest decodes to. */
  lemma {:induction false} UnescapePlainRun(p: string, rest: string)
    requires '%' !in p && '+' !in p
    ensures QueryUnescape(p + rest)
         == if QueryUnescape(rest).Ok? then Ok(p + QueryUnescape(rest).value) else QueryUnescape(rest)
  {
    if p != [] {
      assert p + rest == [p[0]] + (p[1..] + rest);
      assert p[0] != '%' && p[0] != '+';
      assert '%' !in p[1..] && '+' !in p[1..] by {
        assert forall k :: 0 <= k < |p[1..]| ==> p[1..][k] == p[k + 1];
      }
      UnescapePlainRun(p[1..], rest);
      UnescapePlain(p[0], p[1..] + rest);
      if QueryUnescape(rest).Ok? {
        var v := QueryUnescape(rest).value;
        assert QueryUnescape(p[1..] + rest).value == p[1..] + v;
        assert QueryUnescape(p + rest).value == [p[0]] + (p[1..] + v);
        assert [p[0]] + (p[1..] + v) == p + v;
      }
    } else {
      assert p + rest == rest;
      if QueryUnescape(rest).Ok? {
        assert p + QueryUnescape(rest).value == QueryUnescape(rest).value;
      }
    }
  }

  /** "%" and two hexadecimal digits decode to the character with the code
      they spell. */
  lemma UnescapeHexPair(a: char, b: char, rest: string)
    requires IsHex(a) && IsHex(b)
    ensures QueryUnescape(['%', a, b] + rest)
         == if QueryUnescape(rest).Ok? then Ok([(16 * HexValue(a) + HexValue(b)) as char] + QueryUnescape(rest).value)
            else QueryUnescape(rest)
  {
    assert (['%', a, b] + rest)[3..] == rest;
  }

  /** Decoding fails exactly when some "%" is not followed by two
      hexadecimal digits. */
  lemma {:induction false} UnescapeFailsIff(s: string)
    ensures QueryUnescape(s).Err? <==> exists i :: BadEscapeAt(s, i)
    decreases |s|
  {
    if s != [] && !BadEscapeAt(s, 0) {
      var n := if s[0] == '%' then 3 else 1;
      var t := s[n..];
      UnescapeFailsIff(t);
      if exists i :: BadEscapeAt(s, i) {
        var i :| BadEscapeAt(s, i);
        BadEscapeShift(s, n, i);
      }
      if exists j :: BadEscapeAt(t, j) {
        var j :| BadEscapeAt(t, j);
        BadEscapeShift(s, n, j + n);
      }
    }
  }

  /** The first "%" without two hexadecimal digits after it is the one the
      error names. */
  lemma {:induction false} UnescapeFirstBadEscape(s: string, i: nat)
    requires BadEscapeAt(s, i)
    requires forall j :: 0 <= j < i ==> !BadEscapeAt(s, j)
    ensures QueryUnescape(s) == Err(EscapeError(s[i..]))
    decreases |s|
  {
    if i > 0 {
      assert !BadEscapeAt(s, 0);
      var n := if s[0] == '%' then 3 else 1;
      var t := s[n..];
      BadEscapeShift(s, n, i);
      forall j | 0 <= j < i - n ensures !BadEscapeAt(t, j) {
        BadEscapeShift(s, n, j + n);
      }
      UnescapeFirstBadEscape(t, i - n);
      assert t[i - n..] == s[i..];
      if s[0] != '%' {
        assert s == [s[0]] + t;
      }
    }
  }

  /** Past a character, or past a well-formed escape at the start, a bad
      escape of s is one of the rest. */
  lemma BadEscapeShift(s: string, n: nat, i: int)
    requires s != [] && !BadEscapeAt(s, 0) && n == (if s[0] == '%' then 3 else 1)
    ensures n <= |s|
    ensures BadEscapeAt(s, i) <==> i >= n && BadEscapeAt(s[n..], i - n)
  {
    if 0 < i < n {
      assert IsHex(s[i]);
    }
  }

  // ---------------------------------------------------------------------
  // Lines: what a bufio.Scanner reads, and text written line by line
  // ---------------------------------------------------------------------

  /** The index of the first c in s, or |s| when there is none. */
  function IndexOf(s: string, c: char): (i: nat)
    ensures i <= |s| && c !in s[..i]
    ensures i < |s| ==> s[i] == c
  {
    if s == [] || s[0] == c then 0 else 1 + IndexOf(s[1..], c)
  }

  /** The lines a bufio.Scanner with ScanLines yields: the text split at each
      "\n", a last line without "\n" kept, and no line for empty text. */
  function SplitLines(s: string): (ls: seq<string>)
    ensures forall k :: 0 <= k < |ls| ==> '\n' !in ls[k]
    decreases |s|
  {
    if s == [] then []
    else
      var i := IndexOf(s, '\n');
      if i == |s| then [s] else [s[..i]] + SplitLines(s[i + 1..])
  }

  /** The text written by printing each line followed by "\n". */
  function JoinLines(ls: seq<string>): (s: string)
    ensures ls != [] ==> |s| > 0 && s[|s| - 1] == '\n'
    ensures ls == [] ==> s == []
  {
    if ls == [] then [] else ls[0] + "\n" + JoinLines(ls[1..])
  }

  lemma {:induction false} JoinLinesAppend(a: seq<string>, b: seq<string>)
    ensures JoinLines(a + b) == JoinLines(a) + JoinLines(b)
  {
    if a != [] {
      assert (a + b)[0] == a[0] && (a + b)[1..] == a[1..] + b;
      JoinLinesAppend(a[1..], b);
    } else {
      assert a + b == b;
    }
  }

  /** Reading back what was written line by line gives the same lines. */
  lemma {:induction false} SplitJoinLines(ls: seq<string>)
    requires forall k :: 0 <= k < |ls| ==> '\n' !in ls[k]
    ensures SplitLines(JoinLines(ls)) == ls
  {
    if ls != [] {
      assert JoinLines(ls) == ls[0] + ("\n" + JoinLines(ls[1..]));
      SplitLinesCons(ls[0], JoinLines(ls[1..]));
      SplitJoinLines(ls[1..]);
    }
  }

  /** A line and its "\n" are split off the front of a text. */
  lemma {:induction false} SplitLinesCons(line: string, rest: string)
    requires '\n' !in line
    ensures SplitLines(line + ("\n" + rest)) == [line] + SplitLines(rest)
  {
    var s := line + ("\n" + rest);
    IndexOfAfterLine(line, "\n" + rest);
    assert s[..|line|] == line;
    assert s[|line| + 1..] == rest;
  }

  lemma {:induction false} IndexOfAfterLine(line: string, rest: string)
    requires '\n' !in line && rest != [] && rest[0] == '\n'
    ensures IndexOf(line + rest, '\n') == |line|
  {
    if line != [] {
      assert (line + rest)[1..] == line[1..] + rest;
      IndexOfAfterLine(line[1..], rest);
    }
  }

  /** Text that is empty or ends in "\n" is reproduced by splitting it into
      lines and writing each line back with its "\n". */
  lemma {:induction false} JoinSplitLines(s: string)
    requires s == [] || s[|s| - 1] == '\n'
    ensures JoinLines(SplitLines(s)) == s
    decreases |s|
  {
    if s != [] {
      var i := IndexOf(s, '\n');
      assert i < |s|;
      var line, rest := s[..i], s[i + 1..];
      SplitAround(s, i);
      assert s == line + ("\n" + rest);
      SplitLinesCons(line, rest);
      var ls := SplitLines(rest);
      assert ([line] + ls)[1..] == ls;
      assert JoinLines(SplitLines(s)) == line + "\n" + JoinLines(ls);
      assert |rest| == |s| - i - 1;
      if rest != [] {
        assert rest[|rest| - 1] == s[|s| - 1];
      }
      JoinSplitLines(rest);
      AppendAssoc(line, "\n", rest);
    }
  }

  // ---------------------------------------------------------------------
  // Sequences
  // ---------------------------------------------------------------------

  /** A suffix that is x followed by y: x is the slice in front. */
  lemma {:induction false} SplitAt<T>(s: seq<T>, i: nat, x: seq<T>, y: seq<T>)
    requires i <= |s| && s[i..] == x + y
    ensures i + |x| <= |s| && s[i..i + |x|] == x && s[i + |x|..] == y
  {
    assert s[i..][..|x|] == x;
    assert s[i..][|x|..] == y;
  }

  lemma AppendAssoc<T>(x: seq<T>, y: seq<T>, z: seq<T>)
    ensures (x + y) + z == x + (y + z)
  {
  }

  lemma {:induction false} SplitAround(s: string, i: nat)
    requires i < |s|
    ensures s == s[..i] + ([s[i]] + s[i + 1..])
  {
  }
}
