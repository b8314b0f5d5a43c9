/// The lexer for diffs in the "normal" output format of the POSIX diff
/// utility (patch_lex.go): header lines such as "5,7c5", addition lines
/// "> text", deletion lines "< text" and the "---" line between the two
/// halves of a change.
///
/// BeginTokens and the functions it calls give the token sequence the lexer
/// sends for the rest of its input, one function per state function of the
/// lexer. The class PatchLexer is the lexer itself, with its start, read
/// position and rune width and the items it has sent; its Run is proved to
/// send exactly Tokens(data).
module PatchLex {
  import opened Base

  datatype PatchLexType = PatchEOF | PatchError | PatchRange | PatchMode | PatchAddition | PatchDeletion

  /** A token and its text (for PatchError, the message). */
  datatype PatchLexItem = PatchLexItem(t: PatchLexType, v: string)

  /** The number of a token type in the iota block of the source, as "%v"
      prints it. */
  function TypeCode(t: PatchLexType): (n: nat)
    ensures 1 <= n <= 6
  {
    match t
    case PatchEOF => 1
    case PatchError => 2
    case PatchRange => 3
    case PatchMode => 4
    case PatchAddition => 5
    case PatchDeletion => 6
  }

  /** "%v" of io.EOF. */
  const MsgEOF: string := "EOF"
  const MsgTwoCommas: string := "range did already contain one comma so far"

  predicate IsModeChar(c: char)
  {
    c == 'a' || c == 'd' || c == 'c'
  }

  /** The first character of an addition or deletion line. */
  function Marker(t: PatchLexType): string
  {
    if t == PatchDeletion then "<" else ">"
  }

  // ---------------------------------------------------------------------
  // The token sequence of a text
  // ---------------------------------------------------------------------

  /** patchLexer.expect from the i-th character of expected on: None when s
      goes on with expected[i..], otherwise the error it reports. */
  function ExpectFrom(s: string, expected: string, i: nat): (r: Option<string>)
    requires i <= |expected|
    ensures r.None? ==> |expected| <= |s|
    decreases |expected| - i
  {
    if i == |expected| then
      if |expected| <= |s| then None else Some(MsgEOF)
    else if i >= |s| then Some(MsgEOF)
    else if s[i] != expected[i] then
      Some("expected string received " + [s[i]] + " instead of " + [expected[i]] + " at position " + Decimal(i))
    else ExpectFrom(s, expected, i + 1)
  }

  /** patchLexBegin on the remaining text s: blank lines are skipped, and the
      first character of a line chooses the state. */
  function BeginTokens(s: string): seq<PatchLexItem>
    decreases |s|, if s != [] && s[0] == '\n' then 0 else 3
  {
    if s == [] then [PatchLexItem(PatchEOF, "")]
    else if s[0] == '\n' then BeginTokens(s[1..])
    else if IsDigit(s[0]) then RangeTokens(s, "", false)
    else if s[0] == '>' then AddOrDelTokens(s, PatchAddition)
    else if s[0] == '<' then AddOrDelTokens(s, PatchDeletion)
    else if s[0] == '-' then DashTokens(s)
    else [PatchLexItem(PatchError, "unsupported element " + [s[0]])]
  }

  /** patchLexRange, having read acc (digits and at most one comma). */
  function RangeTokens(s: string, acc: string, hadComma: bool): seq<PatchLexItem>
    decreases |s|, 2
  {
    if s == [] then [PatchLexItem(PatchError, MsgEOF)]
    else if IsDigit(s[0]) then RangeTokens(s[1..], acc + [s[0]], hadComma)
    else if s[0] == ',' then
      if hadComma then [PatchLexItem(PatchError, MsgTwoCommas)]
      else RangeTokens(s[1..], acc + [s[0]], true)
    else if IsModeChar(s[0]) then [PatchLexItem(PatchRange, acc)] + ModeTokens(s)
    else if s[0] == '\n' then [PatchLexItem(PatchRange, acc)] + BeginTokens(s)
    else [PatchLexItem(PatchError, "unsupported char " + [s[0]] + " within range")]
  }

  /** patchLexMode: one of a, d or c, and a range follows at once. */
  function ModeTokens(s: string): seq<PatchLexItem>
    decreases |s|, 1
  {
    if s == [] then [PatchLexItem(PatchError, MsgEOF)]
    else if IsModeChar(s[0]) then [PatchLexItem(PatchMode, [s[0]])] + RangeTokens(s[1..], "", false)
    else [PatchLexItem(PatchError, "unsupported mode char " + [s[0]])]
  }

  /** patchLexDash: the line "---" is skipped. */
  function DashTokens(s: string): seq<PatchLexItem>
    decreases |s|, 1
  {
    match ExpectFrom(s, "---\n", 0)
    case Some(e) => [PatchLexItem(PatchError, "dash line errored, " + e)]
    case None => BeginTokens(s[4..])
  }

  /** patchLexAdd (t = PatchAddition) and patchLexDel (t = PatchDeletion):
      the marker, then either the end of the line or a space and the text. */
  function AddOrDelTokens(s: string, t: PatchLexType): seq<PatchLexItem>
    decreases |s|, 1
  {
    match ExpectFrom(s, Marker(t), 0)
    case Some(e) => [PatchLexItem(PatchError, "start errored, " + e)]
    case None =>
      if |s| == 1 then [PatchLexItem(PatchError, MsgEOF)]
      else if s[1] == '\n' then [PatchLexItem(t, "")] + BeginTokens(s[1..])
      else if s[1] != ' ' then [PatchLexItem(PatchError, "received unexpected char " + [s[1]])]
      else BodyTokens(s[2..], "", t)
  }

  /** The text of an addition or deletion line, having read acc. */
  function BodyTokens(s: string, acc: string, t: PatchLexType): seq<PatchLexItem>
    decreases |s|, 1
  {
    if s == [] then [PatchLexItem(PatchError, MsgEOF)]
    else if s[0] == '\n' then [PatchLexItem(t, acc)] + BeginTokens(s)
    else BodyTokens(s[1..], acc + [s[0]], t)
  }

  /** Every token the lexer sends for data, in order. */
  function Tokens(data: string): seq<PatchLexItem>
  {
    BeginTokens(data)
  }

  predicate IsFinal(item: PatchLexItem)
  {
    item.t == PatchEOF || item.t == PatchError
  }

  /** A token stream whose last token, and only that one, is PatchEOF or
      PatchError: after it the lexer closes its channel. */
  predicate Terminated(items: seq<PatchLexItem>)
  {
    && |items| > 0
    && IsFinal(items[|items| - 1])
    && forall k :: 0 <= k < |items| - 1 ==> !IsFinal(items[k])
  }

  lemma ConsTerminated(x: PatchLexItem, rest: seq<PatchLexItem>)
    requires !IsFinal(x) && Terminated(rest)
    ensures Terminated([x] + rest)
  {
    var r := [x] + rest;
    forall k | 0 <= k < |r| - 1 ensures !IsFinal(r[k]) {
      if k > 0 { assert r[k] == rest[k - 1]; }
    }
  }

  // ---------------------------------------------------------------------
  // Properties of the token sequence
  // ---------------------------------------------------------------------

  /** expect succeeds exactly when the text goes on with the expected string. */
  lemma {:induction false} ExpectIffPrefix(s: string, expected: string, i: nat)
    requires i <= |expected| && i <= |s| && s[..i] == expected[..i]
    ensures ExpectFrom(s, expected, i).None? <==> |expected| <= |s| && s[..|expected|] == expected
    decreases |expected| - i
  {
    if i < |expected| {
      if i < |s| && s[i] == expected[i] {
        assert s[..i + 1] == s[..i] + [s[i]] && expected[..i + 1] == expected[..i] + [expected[i]];
        ExpectIffPrefix(s, expected, i + 1);
      } else if |expected| <= |s| {
        assert s[..|expected|][i] == s[i];
      }
    } else {
      assert expected[..i] == expected;
    }
  }

  /** Empty input, or input made of empty lines only, lexes to exactly one
      PatchEOF token. */
  lemma {:induction false} BlankInputIsEOF(data: string)
    requires forall k :: 0 <= k < |data| ==> data[k] == '\n'
    ensures Tokens(data) == [PatchLexItem(PatchEOF, "")]
    decreases |data|
  {
    if data != [] {
      assert data[0] == '\n';
      BlankInputIsEOF(data[1..]);
    }
  }

  /** PatchEOF or PatchError is always the last token, and no earlier token is
      either. */
  lemma {:induction false} TokensTerminated(data: string)
    ensures Terminated(Tokens(data))
  {
    BeginTerminated(data);
  }

  lemma {:induction false} BeginTerminated(s: string)
    ensures Terminated(BeginTokens(s))
    decreases |s|, if s != [] && s[0] == '\n' then 0 else 3
  {
    if s == [] {
    } else if s[0] == '\n' {
      BeginTerminated(s[1..]);
    } else if IsDigit(s[0]) {
      RangeTerminated(s, "", false);
    } else if s[0] == '>' {
      AddOrDelTerminated(s, PatchAddition);
    } else if s[0] == '<' {
      AddOrDelTerminated(s, PatchDeletion);
    } else if s[0] == '-' {
      DashTerminated(s);
    }
  }

  lemma {:induction false} RangeTerminated(s: string, acc: string, hadComma: bool)
    ensures Terminated(RangeTokens(s, acc, hadComma))
    decreases |s|, 2
  {
    if s == [] {
    } else if IsDigit(s[0]) {
      RangeTerminated(s[1..], acc + [s[0]], hadComma);
    } else if s[0] == ',' {
      if !hadComma { RangeTerminated(s[1..], acc + [s[0]], true); }
    } else if IsModeChar(s[0]) {
      ModeTerminated(s);
      ConsTerminated(PatchLexItem(PatchRange, acc), ModeTokens(s));
    } else if s[0] == '\n' {
      BeginTerminated(s);
      ConsTerminated(PatchLexItem(PatchRange, acc), BeginTokens(s));
    }
  }

  lemma {:induction false} ModeTerminated(s: string)
    ensures Terminated(ModeTokens(s))
    decreases |s|, 1
  {
    if s != [] && IsModeChar(s[0]) {
      RangeTerminated(s[1..], "", false);
      ConsTerminated(PatchLexItem(PatchMode, [s[0]]), RangeTokens(s[1..], "", false));
    }
  }

  lemma {:induction false} DashTerminated(s: string)
    ensures Terminated(DashTokens(s))
    decreases |s|, 1
  {
    if ExpectFrom(s, "---\n", 0).None? {
      BeginTerminated(s[4..]);
    }
  }

  lemma {:induction false} AddOrDelTerminated(s: string, t: PatchLexType)
    requires t == PatchAddition || t == PatchDeletion
    ensures Terminated(AddOrDelTokens(s, t))
    decreases |s|, 1
  {
    if ExpectFrom(s, Marker(t), 0).None? && |s| > 1 {
      if s[1] == '\n' {
        BeginTerminated(s[1..]);
        ConsTerminated(PatchLexItem(t, ""), BeginTokens(s[1..]));
      } else if s[1] == ' ' {
        BodyTerminated(s[2..], "", t);
      }
    }
  }

  lemma {:induction false} BodyTerminated(s: string, acc: string, t: PatchLexType)
    requires t == PatchAddition || t == PatchDeletion
    ensures Terminated(BodyTokens(s, acc, t))
    decreases |s|, 1
  {
    if s == [] {
    } else if s[0] == '\n' {
      BeginTerminated(s);
      ConsTerminated(PatchLexItem(t, acc), BeginTokens(s));
    } else {
      BodyTerminated(s[1..], acc + [s[0]], t);
    }
  }

  /** The text of a range token: digits and at most one comma. */
  predicate IsRangeText(v: string)
  {
    && (forall k :: 0 <= k < |v| ==> IsDigit(v[k]) || v[k] == ',')
    && (forall i, j :: 0 <= i < j < |v| && v[i] == ',' ==> v[j] != ',')
  }

  /** What each token type may hold: a range its digits and comma, a mode one
      of a, d and c, an addition or deletion line no newline. */
  predicate WellTyped(item: PatchLexItem)
  {
    && (item.t == PatchRange ==> IsRangeText(item.v))
    && (item.t == PatchMode ==> |item.v| == 1 && IsModeChar(item.v[0]))
    && (item.t == PatchAddition || item.t == PatchDeletion ==> '\n' !in item.v)
  }

  predicate AllWellTyped(items: seq<PatchLexItem>)
  {
    forall k :: 0 <= k < |items| ==> WellTyped(items[k])
  }

  lemma ConsWellTyped(x: PatchLexItem, rest: seq<PatchLexItem>)
    requires WellTyped(x) && AllWellTyped(rest)
    ensures AllWellTyped([x] + rest)
  {
    var r := [x] + rest;
    forall k | 0 <= k < |r| ensures WellTyped(r[k]) {
      if k > 0 { assert r[k] == rest[k - 1]; }
    }
  }

  /** Every token the lexer sends has the shape its type promises. */
  lemma {:induction false} TokensWellTyped(data: string)
    ensures AllWellTyped(Tokens(data))
  {
    BeginWellTyped(data);
  }

  lemma {:induction false} BeginWellTyped(s: string)
    ensures AllWellTyped(BeginTokens(s))
    decreases |s|, if s != [] && s[0] == '\n' then 0 else 3
  {
    if s == [] {
    } else if s[0] == '\n' {
      BeginWellTyped(s[1..]);
    } else if IsDigit(s[0]) {
      RangeWellTyped(s, "", false);
    } else if s[0] == '>' {
      AddOrDelWellTyped(s, PatchAddition);
    } else if s[0] == '<' {
      AddOrDelWellTyped(s, PatchDeletion);
    } else if s[0] == '-' {
      DashWellTyped(s);
    }
  }

  lemma {:induction false} RangeWellTyped(s: string, acc: string, hadComma: bool)
    requires IsRangeText(acc) && (hadComma <==> ',' in acc)
    ensures AllWellTyped(RangeTokens(s, acc, hadComma))
    decreases |s|, 2
  {
    if s == [] {
    } else if IsDigit(s[0]) || (s[0] == ',' && !hadComma) {
      var acc' := acc + [s[0]];
      forall k | 0 <= k < |acc'| ensures IsDigit(acc'[k]) || acc'[k] == ',' {
        if k < |acc| { assert acc'[k] == acc[k]; }
      }
      forall i, j | 0 <= i < j < |acc'| && acc'[i] == ',' ensures acc'[j] != ',' {
        if j < |acc| {
          assert acc'[i] == acc[i] && acc'[j] == acc[j];
        } else {
          assert acc'[i] == acc[i];
        }
      }
      assert ',' in acc' <==> ',' in acc || s[0] == ',' by {
        if ',' in acc' {
          var k :| 0 <= k < |acc'| && acc'[k] == ',';
          if k < |acc| { assert acc[k] == ','; }
        }
        if ',' in acc {
          var k :| 0 <= k < |acc| && acc[k] == ',';
          assert acc'[k] == ',';
        }
        assert acc'[|acc|] == s[0];
      }
      RangeWellTyped(s[1..], acc', hadComma || s[0] == ',');
    } else if s[0] == ',' {
    } else if IsModeChar(s[0]) {
      ModeWellTyped(s);
      ConsWellTyped(PatchLexItem(PatchRange, acc), ModeTokens(s));
    } else if s[0] == '\n' {
      BeginWellTyped(s);
      ConsWellTyped(PatchLexItem(PatchRange, acc), BeginTokens(s));
    }
  }

  lemma {:induction false} ModeWellTyped(s: string)
    ensures AllWellTyped(ModeTokens(s))
    decreases |s|, 1
  {
    if s != [] && IsModeChar(s[0]) {
      RangeWellTyped(s[1..], "", false);
      ConsWellTyped(PatchLexItem(PatchMode, [s[0]]), RangeTokens(s[1..], "", false));
    }
  }

  lemma {:induction false} DashWellTyped(s: string)
    ensures AllWellTyped(DashTokens(s))
    decreases |s|, 1
  {
    if ExpectFrom(s, "---\n", 0).None? {
      BeginWellTyped(s[4..]);
    }
  }

  lemma {:induction false} AddOrDelWellTyped(s: string, t: PatchLexType)
    requires t == PatchAddition || t == PatchDeletion
    ensures AllWellTyped(AddOrDelTokens(s, t))
    decreases |s|, 1
  {
    if ExpectFrom(s, Marker(t), 0).None? && |s| > 1 {
      if s[1] == '\n' {
        BeginWellTyped(s[1..]);
        ConsWellTyped(PatchLexItem(t, ""), BeginTokens(s[1..]));
      } else if s[1] == ' ' {
        BodyWellTyped(s[2..], "", t);
      }
    }
  }

  lemma {:induction false} BodyWellTyped(s: string, acc: string, t: PatchLexType)
    requires t == PatchAddition || t == PatchDeletion
    requires '\n' !in acc
    ensures AllWellTyped(BodyTokens(s, acc, t))
    decreases |s|, 1
  {
    if s == [] {
    } else if s[0] == '\n' {
      BeginWellTyped(s);
      ConsWellTyped(PatchLexItem(t, acc), BeginTokens(s));
    } else {
      assert '\n' !in acc + [s[0]];
      BodyWellTyped(s[1..], acc + [s[0]], t);
    }
  }

  predicate EndsInEOF(items: seq<PatchLexItem>)
  {
    |items| > 0 && items[|items| - 1].t == PatchEOF
  }

  lemma ConsEndsInEOF(x: PatchLexItem, rest: seq<PatchLexItem>)
    requires x.t != PatchEOF && EndsInEOF([x] + rest)
    ensures EndsInEOF(rest)
  {
    assert rest != [] && ([x] + rest)[|[x] + rest| - 1] == rest[|rest| - 1];
  }

  lemma LastOfSuffix(s: string, k: nat)
    requires k < |s|
    ensures s[k..] != [] && s[k..][|s[k..]| - 1] == s[|s| - 1]
  {
  }

  /** Input that ends inside a range, a mode or a line gives PatchError,
      never PatchEOF: only input that is empty or ends in "\n" reaches
      PatchEOF. */
  lemma {:induction false} EOFOnlyAfterNewline(data: string)
    requires EndsInEOF(Tokens(data))
    ensures data == [] || data[|data| - 1] == '\n'
  {
    BeginEOF(data);
  }

  lemma {:induction false} BeginEOF(s: string)
    requires EndsInEOF(BeginTokens(s))
    ensures s == [] || s[|s| - 1] == '\n'
    decreases |s|, if s != [] && s[0] == '\n' then 0 else 3
  {
    if s == [] {
    } else if s[0] == '\n' {
      BeginEOF(s[1..]);
      if |s| > 1 { LastOfSuffix(s, 1); }
    } else if IsDigit(s[0]) {
      RangeEOF(s, "", false);
    } else if s[0] == '>' {
      AddOrDelEOF(s, PatchAddition);
    } else if s[0] == '<' {
      AddOrDelEOF(s, PatchDeletion);
    } else if s[0] == '-' {
      DashEOF(s);
    }
  }

  lemma {:induction false} RangeEOF(s: string, acc: string, hadComma: bool)
    requires EndsInEOF(RangeTokens(s, acc, hadComma))
    ensures s != [] && s[|s| - 1] == '\n'
    decreases |s|, 2
  {
    if IsDigit(s[0]) {
      RangeEOF(s[1..], acc + [s[0]], hadComma);
      LastOfSuffix(s, 1);
    } else if s[0] == ',' {
      RangeEOF(s[1..], acc + [s[0]], true);
      LastOfSuffix(s, 1);
    } else if IsModeChar(s[0]) {
      ConsEndsInEOF(PatchLexItem(PatchRange, acc), ModeTokens(s));
      ModeEOF(s);
    } else {
      ConsEndsInEOF(PatchLexItem(PatchRange, acc), BeginTokens(s));
      BeginEOF(s);
    }
  }

  lemma {:induction false} ModeEOF(s: string)
    requires EndsInEOF(ModeTokens(s))
    ensures s != [] && s[|s| - 1] == '\n'
    decreases |s|, 1
  {
    ConsEndsInEOF(PatchLexItem(PatchMode, [s[0]]), RangeTokens(s[1..], "", false));
    RangeEOF(s[1..], "", false);
    LastOfSuffix(s, 1);
  }

  lemma {:induction false} DashEOF(s: string)
    requires EndsInEOF(DashTokens(s))
    ensures s != [] && s[|s| - 1] == '\n'
    decreases |s|, 1
  {
    var e := ExpectFrom(s, "---\n", 0);
    assert e.None?;
    BeginEOF(s[4..]);
    if |s| > 4 {
      LastOfSuffix(s, 4);
    } else {
      ExpectIffPrefix(s, "---\n", 0);
      assert s[..4] == "---\n";
      assert s[3] == '\n';
    }
  }

  lemma {:induction false} AddOrDelEOF(s: string, t: PatchLexType)
    requires t == PatchAddition || t == PatchDeletion
    requires EndsInEOF(AddOrDelTokens(s, t))
    ensures s != [] && s[|s| - 1] == '\n'
    decreases |s|, 1
  {
    assert ExpectFrom(s, Marker(t), 0).None? && |s| > 1;
    if s[1] == '\n' {
      ConsEndsInEOF(PatchLexItem(t, ""), BeginTokens(s[1..]));
      BeginEOF(s[1..]);
      LastOfSuffix(s, 1);
    } else {
      BodyEOF(s[2..], "", t);
      LastOfSuffix(s, 2);
    }
  }

  lemma {:induction false} BodyEOF(s: string, acc: string, t: PatchLexType)
    requires t == PatchAddition || t == PatchDeletion
    requires EndsInEOF(BodyTokens(s, acc, t))
    ensures s != [] && s[|s| - 1] == '\n'
    decreases |s|, 1
  {
    if s[0] == '\n' {
      ConsEndsInEOF(PatchLexItem(t, acc), BeginTokens(s));
      BeginEOF(s);
    } else {
      BodyEOF(s[1..], acc + [s[0]], t);
      LastOfSuffix(s, 1);
    }
  }

  // ---------------------------------------------------------------------
  // Lexing written hunks
  // ---------------------------------------------------------------------

  /** A line range of a hunk header: a line number, or a first and last line
      separated by a comma. */
  datatype LineRange = LineRange(first: nat, last: Option<nat>)

  function RangeText(r: LineRange): string
  {
    Decimal(r.first) + if r.last.Some? then "," + Decimal(r.last.value) else ""
  }

  /** One hunk of a normal-format diff: "from" mode "to", then the deleted
      lines, for a change "---", then the added lines. */
  datatype Hunk = Hunk(from: LineRange, mode: char, to: LineRange, deleted: seq<string>, added: seq<string>)

  predicate NoNewline(lines: seq<string>)
  {
    forall k :: 0 <= k < |lines| ==> '\n' !in lines[k]
  }

  predicate WellFormedHunk(h: Hunk)
  {
    IsModeChar(h.mode) && NoNewline(h.deleted) && NoNewline(h.added)
  }

  /** The lines of one half of a hunk, each after marker and a space. */
  function LinesText(t: PatchLexType, lines: seq<string>): string
  {
    if lines == [] then [] else Marker(t) + (" " + (lines[0] + ("\n" + LinesText(t, lines[1..]))))
  }

  function DashText(mode: char): string
  {
    if mode == 'c' then "---\n" else ""
  }

  /** The text of a hunk as the diff utility writes it. */
  function HunkText(h: Hunk): string
  {
    RangeText(h.from) + ([h.mode] + (RangeText(h.to) + ("\n" +
      (LinesText(PatchDeletion, h.deleted) + (DashText(h.mode) + LinesText(PatchAddition, h.added))))))
  }

  function Render(hs: seq<Hunk>): string
  {
    if hs == [] then [] else HunkText(hs[0]) + Render(hs[1..])
  }

  function LineItems(t: PatchLexType, lines: seq<string>): seq<PatchLexItem>
  {
    if lines == [] then [] else [PatchLexItem(t, lines[0])] + LineItems(t, lines[1..])
  }

  /** The tokens of a hunk: the two ranges around the mode, then one token
      per deleted and per added line. */
  function HunkItems(h: Hunk): seq<PatchLexItem>
  {
    [PatchLexItem(PatchRange, RangeText(h.from)), PatchLexItem(PatchMode, [h.mode]),
     PatchLexItem(PatchRange, RangeText(h.to))]
    + (LineItems(PatchDeletion, h.deleted) + LineItems(PatchAddition, h.added))
  }

  function ItemsOf(hs: seq<Hunk>): seq<PatchLexItem>
  {
    if hs == [] then [] else HunkItems(hs[0]) + ItemsOf(hs[1..])
  }

  /** Well-formed hunks lex to their ranges, modes and lines, in order,
      followed by PatchEOF. */
  lemma {:induction false} LexRender(hs: seq<Hunk>)
    requires forall k :: 0 <= k < |hs| ==> WellFormedHunk(hs[k])
    ensures Tokens(Render(hs)) == ItemsOf(hs) + [PatchLexItem(PatchEOF, "")]
  {
    if hs != [] {
      LexRender(hs[1..]);
      LexHunk(hs[0], Render(hs[1..]));
      assert ItemsOf(hs) + [PatchLexItem(PatchEOF, "")]
        == HunkItems(hs[0]) + (ItemsOf(hs[1..]) + [PatchLexItem(PatchEOF, "")]);
    }
  }

  lemma {:induction false} LexHunk(h: Hunk, rest: string)
    requires WellFormedHunk(h)
    ensures BeginTokens(HunkText(h) + rest) == HunkItems(h) + BeginTokens(rest)
  {
    var body := LinesText(PatchDeletion, h.deleted) + (DashText(h.mode) + (LinesText(PatchAddition, h.added) + rest));
    ConcatRightNested(h, rest);
    LexHeaderLine(h.from, h.mode, h.to, body);
    LexHunkLines(h, rest);
    var header := [PatchLexItem(PatchRange, RangeText(h.from)), PatchLexItem(PatchMode, [h.mode]),
                   PatchLexItem(PatchRange, RangeText(h.to))];
    var lines := LineItems(PatchDeletion, h.deleted) + LineItems(PatchAddition, h.added);
    assert header + (LineItems(PatchDeletion, h.deleted) + (LineItems(PatchAddition, h.added) + BeginTokens(rest)))
        == (header + lines) + BeginTokens(rest);
  }

  /** A header line lexes to its two ranges around its mode. */
  lemma {:induction false} LexHeaderLine(from: LineRange, mode: char, to: LineRange, body: string)
    requires IsModeChar(mode)
    ensures BeginTokens(RangeText(from) + ([mode] + (RangeText(to) + ("\n" + body))))
         == [PatchLexItem(PatchRange, RangeText(from)), PatchLexItem(PatchMode, [mode]),
             PatchLexItem(PatchRange, RangeText(to))] + BeginTokens(body)
  {
    var afterTo := "\n" + body;
    var afterMode := RangeText(to) + afterTo;
    var afterFrom := [mode] + afterMode;
    LexRange(from, afterFrom);
    assert ModeTokens(afterFrom) == [PatchLexItem(PatchMode, [mode])] + RangeTokens(afterMode, "", false);
    LexRange(to, afterTo);
    assert BeginTokens(afterTo) == BeginTokens(body);
  }

  /** The deleted lines, the dash line of a change and the added lines lex
      to one token per line. */
  lemma {:induction false} LexHunkLines(h: Hunk, rest: string)
    requires WellFormedHunk(h)
    ensures BeginTokens(LinesText(PatchDeletion, h.deleted) + (DashText(h.mode) + (LinesText(PatchAddition, h.added) + rest)))
         == LineItems(PatchDeletion, h.deleted) + (LineItems(PatchAddition, h.added) + BeginTokens(rest))
  {
    var addText := LinesText(PatchAddition, h.added) + rest;
    LexLines(PatchDeletion, h.deleted, DashText(h.mode) + addText);
    LexDash(h.mode, addText);
    LexLines(PatchAddition, h.added, rest);
  }

  /** The text of a hunk followed by rest, with every concatenation grouped to
      the right. */
  lemma ConcatRightNested(h: Hunk, rest: string)
    ensures HunkText(h) + rest ==
      RangeText(h.from) + ([h.mode] + (RangeText(h.to) + ("\n" +
        (LinesText(PatchDeletion, h.deleted) + (DashText(h.mode) + (LinesText(PatchAddition, h.added) + rest))))))
  {
  }

  /** A range text lexes to one range token, and the character after it is
      where the lexer goes on. */
  lemma {:induction false} LexRange(r: LineRange, rest: string)
    requires rest != [] && (IsModeChar(rest[0]) || rest[0] == '\n')
    ensures RangeTokens(RangeText(r) + rest, "", false) ==
      [PatchLexItem(PatchRange, RangeText(r))] + (if rest[0] == '\n' then BeginTokens(rest) else ModeTokens(rest))
    ensures IsDigit((RangeText(r) + rest)[0])
  {
    var first := Decimal(r.first);
    var tail := if r.last.Some? then "," + Decimal(r.last.value) else "";
    assert RangeText(r) + rest == first + (tail + rest);
    assert (first + (tail + rest))[0] == first[0];
    LexDigits(first, tail + rest, "", false);
    assert "" + first == first;
    if r.last.Some? {
      var last := Decimal(r.last.value);
      assert tail + rest == "," + last + rest;
      assert first + "," + last == RangeText(r);
      LexCommaDigits(first, last, rest);
    } else {
      assert tail + rest == rest && first == RangeText(r);
      RangeStops(rest, first, false);
    }
  }

  lemma LexCommaDigits(first: string, last: string, rest: string)
    requires AllDigits(last)
    requires rest != [] && (IsModeChar(rest[0]) || rest[0] == '\n')
    ensures RangeTokens("," + last + rest, first, false) ==
      [PatchLexItem(PatchRange, first + "," + last)] + (if rest[0] == '\n' then BeginTokens(rest) else ModeTokens(rest))
  {
    var s := "," + last + rest;
    assert s[0] == ',' && s[1..] == last + rest;
    assert RangeTokens(s, first, false) == RangeTokens(last + rest, first + ",", true);
    LexDigits(last, rest, first + ",", true);
    RangeStops(rest, first + "," + last, true);
  }

  lemma RangeStops(rest: string, acc: string, hadComma: bool)
    requires rest != [] && (IsModeChar(rest[0]) || rest[0] == '\n')
    ensures RangeTokens(rest, acc, hadComma) ==
      [PatchLexItem(PatchRange, acc)] + (if rest[0] == '\n' then BeginTokens(rest) else ModeTokens(rest))
  {
  }

  lemma {:induction false} LexDigits(d: string, rest: string, acc: string, hadComma: bool)
    requires AllDigits(d)
    ensures RangeTokens(d + rest, acc, hadComma) == RangeTokens(rest, acc + d, hadComma)
    decreases |d|
  {
    if d != [] {
      assert (d + rest)[0] == d[0] && (d + rest)[1..] == d[1..] + rest;
      assert IsDigit(d[0]);
      LexDigits(d[1..], rest, acc + [d[0]], hadComma);
      assert acc + [d[0]] + d[1..] == acc + d;
    } else {
      assert d + rest == rest && acc + d == acc;
    }
  }

  /** The lines of one half of a hunk lex to one token each. */
  lemma {:induction false} LexLines(t: PatchLexType, lines: seq<string>, rest: string)
    requires t == PatchAddition || t == PatchDeletion
    requires NoNewline(lines)
    ensures BeginTokens(LinesText(t, lines) + rest) == LineItems(t, lines) + BeginTokens(rest)
  {
    if lines != [] {
      var after := LinesText(t, lines[1..]) + rest;
      assert LinesText(t, lines) + rest == Marker(t) + (" " + (lines[0] + ("\n" + after)));
      LexLine(t, lines[0], after);
      assert NoNewline(lines[1..]) by {
        forall k | 0 <= k < |lines[1..]| ensures '\n' !in lines[1..][k] {
          assert lines[1..][k] == lines[k + 1];
        }
      }
      LexLines(t, lines[1..], rest);
      calc {
        BeginTokens(LinesText(t, lines) + rest);
        BeginTokens(Marker(t) + (" " + (lines[0] + ("\n" + after))));
        [PatchLexItem(t, lines[0])] + BeginTokens(after);
        [PatchLexItem(t, lines[0])] + (LineItems(t, lines[1..]) + BeginTokens(rest));
        LineItems(t, lines) + BeginTokens(rest);
      }
    } else {
      assert LinesText(t, lines) + rest == rest;
    }
  }

  lemma LexLine(t: PatchLexType, line: string, after: string)
    requires t == PatchAddition || t == PatchDeletion
    requires '\n' !in line
    ensures BeginTokens(Marker(t) + (" " + (line + ("\n" + after)))) == [PatchLexItem(t, line)] + BeginTokens(after)
  {
    var s := Marker(t) + (" " + (line + ("\n" + after)));
    assert s[0] == Marker(t)[0] && s[1] == ' ' && s[2..] == line + ("\n" + after);
    ExpectIffPrefix(s, Marker(t), 0);
    assert s[..1] == Marker(t);
    assert AddOrDelTokens(s, t) == BodyTokens(s[2..], "", t);
    LexBody(line, after, t);
    assert BeginTokens("\n" + after) == BeginTokens(after) by {
      assert ("\n" + after)[1..] == after;
    }
  }

  lemma {:induction false} LexBody(line: string, rest: string, t: PatchLexType)
    requires '\n' !in line
    ensures BodyTokens(line + ("\n" + rest), "", t) == [PatchLexItem(t, line)] + BeginTokens("\n" + rest)
  {
    LexBodyFrom(line, rest, "", t);
    assert "" + line == line;
  }

  lemma {:induction false} LexBodyFrom(line: string, rest: string, acc: string, t: PatchLexType)
    requires '\n' !in line
    ensures BodyTokens(line + ("\n" + rest), acc, t) == [PatchLexItem(t, acc + line)] + BeginTokens("\n" + rest)
    decreases |line|
  {
    var s := line + ("\n" + rest);
    if line == [] {
      assert s == "\n" + rest && acc + line == acc;
    } else {
      assert s[0] == line[0] && s[1..] == line[1..] + ("\n" + rest);
      LexBodyFrom(line[1..], rest, acc + [line[0]], t);
      assert acc + [line[0]] + line[1..] == acc + line;
    }
  }

  /** The "---" line of a change is skipped; other hunks have none. */
  lemma LexDash(mode: char, rest: string)
    ensures BeginTokens(DashText(mode) + rest) == BeginTokens(rest)
  {
    if mode == 'c' {
      var s := "---\n" + rest;
      ExpectIffPrefix(s, "---\n", 0);
      assert s[..4] == "---\n" && s[4..] == rest;
    } else {
      assert DashText(mode) + rest == rest;
    }
  }

  // ---------------------------------------------------------------------
  // The lexer
  // ---------------------------------------------------------------------

  /** The state functions of the lexer; Stop is the nil state. */
  datatype PatchLexState = Begin | Range | Mode | Dash | AddOrDel(t: PatchLexType) | Stop

  class PatchLexer {
    const data: string
    /** Where the text of the next item starts. */
    var start: nat
    /** Runes read so far. */
    var pos: nat
    /** The width of the rune read last. */
    var width: nat
    /** The items sent to the channel so far. */
    var items: seq<PatchLexItem>

    ghost predicate Valid()
      reads this
    {
      start <= pos <= |data|
    }

    /** The tokens still to be sent from state, at the current position. */
    ghost function Pending(state: PatchLexState): seq<PatchLexItem>
      reads this
      requires Valid()
    {
      match state
      case Begin => BeginTokens(data[pos..])
      case Range => RangeTokens(data[pos..], "", false)
      case Mode => ModeTokens(data[pos..])
      case Dash => DashTokens(data[pos..])
      case AddOrDel(t) => AddOrDelTokens(data[pos..], t)
      case Stop => []
    }

    /** Orders the states for termination: a state that moves on without
        reading has a lower rank than the one before it. */
    ghost function Rank(state: PatchLexState): nat
      reads this
    {
      match state
      case Begin => if pos < |data| && data[pos] == '\n' then 0 else 3
      case Range => 2
      case Stop => 0
      case _ => 1
    }

    constructor (data: string)
      ensures Valid() && this.data == data && start == 0 && pos == 0 && items == []
    {
      this.data := data;
      start, pos, width := 0, 0, 0;
      items := [];
    }

    /** The next rune, or eof at the end of the data. */
    method Next() returns (r: char, eof: bool)
      requires Valid()
      modifies this`pos, this`width
      ensures Valid()
      ensures eof <==> old(pos) == |data|
      ensures eof ==> pos == old(pos) && width == old(width)
      ensures !eof ==> r == data[old(pos)] && pos == old(pos) + 1 && width == 1
    {
      if pos >= |data| {
        r, eof := ' ', true;
      } else {
        r, eof := data[pos], false;
        pos, width := pos + 1, 1;
      }
    }

    /** Steps back over the rune read last. */
    method Backup()
      requires start + width <= pos
      modifies this`pos
      ensures pos == old(pos) - width
    {
      pos := pos - width;
    }

    /** Drops the text read since the last item. */
    method Ignore()
      modifies this`start
      ensures start == pos
    {
      start := pos;
    }

    /** Sends the text read since the last item as a token of type t. */
    method Emit(t: PatchLexType, succ: PatchLexState) returns (next: PatchLexState)
      requires Valid()
      modifies this`items, this`start
      ensures items == old(items) + [PatchLexItem(t, data[old(start)..pos])]
      ensures start == pos && next == succ
    {
      items := items + [PatchLexItem(t, data[start..pos])];
      start := pos;
      next := succ;
    }

    method Errorf(msg: string) returns (next: PatchLexState)
      modifies this`items
      ensures items == old(items) + [PatchLexItem(PatchError, msg)] && next == Stop
    {
      items := items + [PatchLexItem(PatchError, msg)];
      next := Stop;
    }

    method Eof() returns (next: PatchLexState)
      modifies this`items
      ensures items == old(items) + [PatchLexItem(PatchEOF, "")] && next == Stop
    {
      items := items + [PatchLexItem(PatchEOF, "")];
      next := Stop;
    }

    /** Reads expected, rune by rune; the error names the first rune that
        differs. */
    method Expect(expected: string) returns (err: Option<string>)
      requires Valid()
      modifies this`pos, this`width
      ensures Valid() && pos >= old(pos)
      ensures err == ExpectFrom(data[old(pos)..], expected, 0)
      ensures err.None? ==> pos == old(pos) + |expected|
    {
      ghost var s := data[pos..];
      var i := 0;
      while i < |expected|
        invariant 0 <= i <= |expected|
        invariant Valid() && pos == old(pos) + i
        invariant ExpectFrom(s, expected, i) == ExpectFrom(s, expected, 0)
      {
        var r, eof := Next();
        if eof {
          return Some(MsgEOF);
        }
        assert s[i] == r;
        if r != expected[i] {
          return Some("expected string received " + [r] + " instead of " + [expected[i]] + " at position " + Decimal(i));
        }
        i := i + 1;
      }
      err := None;
    }

    /** patchLexBegin. */
    method LexBegin() returns (next: PatchLexState)
      requires Valid() && start == pos
      modifies this`pos, this`width, this`start, this`items
      ensures Valid() && pos >= old(pos) && (next != Stop ==> start == pos)
      ensures old(pos) < pos || Rank(next) < old(Rank(Begin))
      ensures items + Pending(next) == old(items) + old(Pending(Begin))
    {
      ghost var s := data[pos..];
      var r, eof := Next();
      if eof {
        next := Eof();
      } else if r == '\n' {
        Ignore();
        next := Begin;
      } else {
        if IsDigit(r) {
          next := Range;
        } else if r == '>' {
          next := AddOrDel(PatchAddition);
        } else if r == '<' {
          next := AddOrDel(PatchDeletion);
        } else if r == '-' {
          next := Dash;
        } else {
          next := Errorf("unsupported element " + [r]);
        }
        Backup();
      }
    }

    /** patchLexRange: digits with at most one comma, up to the mode or the
        end of the line. */
    method LexRange() returns (next: PatchLexState)
      requires Valid() && start == pos
      modifies this`pos, this`width, this`start, this`items
      ensures Valid() && pos >= old(pos) && (next != Stop ==> start == pos)
      ensures old(pos) < pos || Rank(next) < 2
      ensures items + Pending(next) == old(items) + old(Pending(Range))
    {
      ghost var goal := Pending(Range);
      var hadComma := false;
      assert data[start..pos] == "";
      var done := false;
      next := Stop;
      while !done
        invariant Valid() && old(pos) <= pos
        invariant !done ==> start == old(pos)
        invariant !done ==> items == old(items) && RangeTokens(data[pos..], data[start..pos], hadComma) == goal
        invariant done ==> items + Pending(next) == old(items) + goal
        invariant done ==> (next != Stop ==> start == pos) && Rank(next) < 2
        decreases !done, |data| - pos
      {
        hadComma, next, done := RangeStep(hadComma);
      }
    }

    /** One rune of patchLexRange: a digit or the first comma goes on, a mode
        char or a newline ends the range. */
    method RangeStep(hadComma: bool) returns (hadComma2: bool, next: PatchLexState, done: bool)
      requires Valid()
      modifies this`pos, this`width, this`start, this`items
      ensures Valid() && old(pos) <= pos
      ensures !done ==> start == old(start) && items == old(items) && pos == old(pos) + 1
      ensures !done ==>
        RangeTokens(data[pos..], data[start..pos], hadComma2) == old(RangeTokens(data[pos..], data[start..pos], hadComma))
      ensures done ==> items + Pending(next) == old(items) + old(RangeTokens(data[pos..], data[start..pos], hadComma))
      ensures done ==> (next != Stop ==> start == pos) && Rank(next) < 2
    {
      hadComma2, next, done := hadComma, Stop, false;
      if pos == |data| {
        assert data[pos..] == [];
        next := Errorf(MsgEOF);
        done := true;
        return;
      }
      var r := data[pos];
      if IsDigit(r) || r == ',' {
        hadComma2, next, done := RangeRune(hadComma);
      } else {
        next := RangeEnd(hadComma);
        done := true;
      }
    }

    /** A digit or a comma inside a range. */
    method RangeRune(hadComma: bool) returns (hadComma2: bool, next: PatchLexState, done: bool)
      requires Valid() && pos < |data| && (IsDigit(data[pos]) || data[pos] == ',')
      modifies this`pos, this`width, this`items
      ensures Valid() && old(pos) <= pos && start == old(start)
      ensures !done ==> items == old(items) && pos == old(pos) + 1
      ensures !done ==>
        RangeTokens(data[pos..], data[start..pos], hadComma2) == old(RangeTokens(data[pos..], data[start..pos], hadComma))
      ensures done ==> next == Stop && items == old(items) + old(RangeTokens(data[pos..], data[start..pos], hadComma))
    {
      ghost var rest := data[pos..];
      ghost var acc := data[start..pos];
      hadComma2, next, done := hadComma, Stop, false;
      var r, _ := Next();
      assert rest[0] == r && rest[1..] == data[pos..] && data[start..pos] == acc + [r];
      if r == ',' {
        if hadComma {
          next := Errorf(MsgTwoCommas);
          done := true;
          return;
        }
        hadComma2 := true;
      }
    }

    /** A rune that ends a range: a mode char or a newline, which is put
        back, or anything else, which is an error. */
    method RangeEnd(hadComma: bool) returns (next: PatchLexState)
      requires Valid() && pos < |data| && !IsDigit(data[pos]) && data[pos] != ','
      modifies this`pos, this`width, this`start, this`items
      ensures Valid() && old(pos) <= pos
      ensures items + Pending(next) == old(items) + old(RangeTokens(data[pos..], data[start..pos], hadComma))
      ensures (next != Stop ==> start == pos) && Rank(next) < 2
    {
      ghost var rest := data[pos..];
      ghost var acc := data[start..pos];
      ghost var goal := RangeTokens(rest, acc, hadComma);
      var r, _ := Next();
      assert rest[0] == r;
      if IsModeChar(r) {
        assert goal == [PatchLexItem(PatchRange, acc)] + ModeTokens(rest);
        next := EndRange(Mode);
        assert data[pos..] == rest && Pending(next) == ModeTokens(rest);
      } else if r == '\n' {
        assert goal == [PatchLexItem(PatchRange, acc)] + BeginTokens(rest);
        next := EndRange(Begin);
        assert data[pos..] == rest && Pending(next) == BeginTokens(rest);
      } else {
        assert goal == [PatchLexItem(PatchError, "unsupported char " + [r] + " within range")];
        next := Errorf("unsupported char " + [r] + " within range");
      }
    }

    /** Puts back the rune just read and emits the range before it. */
    method EndRange(succ: PatchLexState) returns (next: PatchLexState)
      requires Valid() && start < pos && width == 1
      modifies this`pos, this`start, this`items
      ensures Valid() && pos == old(pos) - 1 && start == pos && next == succ
      ensures items == old(items) + [PatchLexItem(PatchRange, data[old(start)..pos])]
    {
      Backup();
      next := Emit(PatchRange, succ);
    }

    /** patchLexMode: one of a, d or c. */
    method LexMode() returns (next: PatchLexState)
      requires Valid() && start == pos
      modifies this`pos, this`width, this`start, this`items
      ensures Valid() && pos >= old(pos) && (next != Stop ==> start == pos)
      ensures old(pos) < pos || Rank(next) < 1
      ensures items + Pending(next) == old(items) + old(Pending(Mode))
    {
      ghost var s := data[pos..];
      var r, eof := Next();
      if eof {
        next := Errorf(MsgEOF);
      } else {
        assert s[0] == r && s[1..] == data[pos..];
        if IsModeChar(r) {
          assert data[start..pos] == [r];
          next := Emit(PatchMode, Range);
        } else {
          next := Errorf("unsupported mode char " + [r]);
        }
      }
    }

    /** patchLexDash: the line "---". */
    method LexDash() returns (next: PatchLexState)
      requires Valid() && start == pos
      modifies this`pos, this`width, this`start, this`items
      ensures Valid() && pos >= old(pos) && (next != Stop ==> start == pos)
      ensures old(pos) < pos || Rank(next) < 1
      ensures items + Pending(next) == old(items) + old(Pending(Dash))
    {
      ghost var s := data[pos..];
      var err := Expect("---\n");
      if err.Some? {
        next := Errorf("dash line errored, " + err.value);
      } else {
        assert s[4..] == data[pos..];
        Ignore();
        next := Begin;
      }
    }

    /** patchLexAdd (t = PatchAddition) and patchLexDel (t = PatchDeletion). */
    method LexAddOrDel(t: PatchLexType) returns (next: PatchLexState)
      requires Valid() && start == pos
      modifies this`pos, this`width, this`start, this`items
      ensures Valid() && pos >= old(pos) && (next != Stop ==> start == pos)
      ensures old(pos) < pos || Rank(next) < 1
      ensures items + Pending(next) == old(items) + old(Pending(AddOrDel(t)))
    {
      ghost var s := data[pos..];
      ghost var goal := AddOrDelTokens(s, t);
      assert old(Pending(AddOrDel(t))) == goal;
      var lineStart := if t == PatchDeletion then "<" else ">";
      var err := Expect(lineStart);
      if err.Some? {
        assert goal == [PatchLexItem(PatchError, "start errored, " + err.value)];
        next := Errorf("start errored, " + err.value);
        return;
      }
      assert ExpectFrom(s, Marker(t), 0).None?;
      Ignore();
      var r, eof := Next();
      if eof {
        assert |s| == 1;
        next := Errorf(MsgEOF);
        return;
      }
      assert s[1] == r && s[2..] == data[pos..];
      if r == '\n' {
        Backup();
        assert s[1..] == data[pos..] && data[start..pos] == "";
        assert goal == [PatchLexItem(t, "")] + BeginTokens(s[1..]);
        next := Emit(t, Begin);
        return;
      } else if r != ' ' {
        assert goal == [PatchLexItem(PatchError, "received unexpected char " + [r])];
        next := Errorf("received unexpected char " + [r]);
        return;
      }
      assert goal == BodyTokens(data[pos..], "", t);
      Ignore();
      next := LexLineText(t);
    }

    /** The text of an addition or deletion line, up to the newline. */
    method LexLineText(t: PatchLexType) returns (next: PatchLexState)
      requires Valid() && start == pos
      modifies this`pos, this`width, this`start, this`items
      ensures Valid() && pos >= old(pos) && (next != Stop ==> start == pos)
      ensures items + Pending(next) == old(items) + BodyTokens(old(data[pos..]), "", t)
    {
      ghost var goal := BodyTokens(data[pos..], "", t);
      assert data[start..pos] == "";
      var done := false;
      next := Stop;
      while !done
        invariant Valid() && old(pos) <= pos
        invariant !done ==> start == old(pos)
        invariant !done ==> items == old(items) && BodyTokens(data[pos..], data[start..pos], t) == goal
        invariant done ==> items + Pending(next) == old(items) + goal
        invariant done ==> (next != Stop ==> start == pos)
        decreases !done, |data| - pos
      {
        next, done := LineTextStep(t);
      }
    }

    /** One rune of a line's text: a newline ends it. */
    method LineTextStep(t: PatchLexType) returns (next: PatchLexState, done: bool)
      requires Valid()
      modifies this`pos, this`width, this`start, this`items
      ensures Valid() && old(pos) <= pos
      ensures !done ==> start == old(start) && items == old(items) && pos == old(pos) + 1
      ensures !done ==> BodyTokens(data[pos..], data[start..pos], t) == old(BodyTokens(data[pos..], data[start..pos], t))
      ensures done ==> items + Pending(next) == old(items) + old(BodyTokens(data[pos..], data[start..pos], t))
      ensures done ==> (next != Stop ==> start == pos)
    {
      ghost var rest := data[pos..];
      ghost var acc := data[start..pos];
      next, done := Stop, false;
      var c, eof := Next();
      if eof {
        next := Errorf(MsgEOF);
        done := true;
        return;
      }
      assert rest[0] == c && rest[1..] == data[pos..] && data[start..pos] == acc + [c];
      if c == '\n' {
        Backup();
        next := Emit(t, Begin);
        done := true;
      }
    }

    /** run: steps through the state functions until one returns nil. */
    method Run()
      requires Valid() && start == 0 && pos == 0 && items == []
      modifies this
      ensures items == Tokens(data)
    {
      var state := Begin;
      while state != Stop
        invariant Valid() && (state != Stop ==> start == pos)
        invariant items + Pending(state) == Tokens(data)
        decreases |data| - pos, Rank(state)
      {
        match state
        case Begin =>
          state := LexBegin();
        case Range =>
          state := LexRange();
        case Mode =>
          state := LexMode();
        case Dash =>
          state := LexDash();
        case AddOrDel(t) =>
          state := LexAddOrDel(t);
      }
    }
  }

  /** lexPatch: lexes the whole data and returns every item sent. */
  method LexPatch(data: string) returns (items: seq<PatchLexItem>)
    ensures items == Tokens(data)
    ensures Terminated(items)
  {
    var lexer := new PatchLexer(data);
    lexer.Run();
    items := lexer.items;
    TokensTerminated(data);
  }
}
