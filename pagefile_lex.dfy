/// The lexer for PmWiki's page-file format (pagefile_lex.go). Every line has
/// the shape key[:opt]*=value followed by "\n". The first field of a line is a
/// Key, every further ":"-separated field is a KeyOpt, and everything after the
/// first "=" up to the newline is the Value.
///
/// BeginTokens, FieldTokens and ValueTokens give the token sequence the lexer
/// sends for the rest of its input. The class PageFileLexer is the lexer
/// itself, with its read position and the items it has sent, and its Run is
/// proved to send exactly Tokens(input).
module PageFileLex {
  import opened Base

  datatype PageFileLexType = EOF | Error | Key | KeyOpt | Value

  /** The number a token type prints as: its position in the iota list. */
  function TypeCode(t: PageFileLexType): (n: nat)
    ensures 1 <= n <= 5
  {
    match t
    case EOF => 1
    case Error => 2
    case Key => 3
    case KeyOpt => 4
    case Value => 5
  }

  /** A token and its text (for Error, the message). */
  datatype PageFileLexItem = PageFileLexItem(t: PageFileLexType, v: string)

  /** The message of an error token for a premature end of input ("%v" of io.EOF). */
  const MsgEOF: string := "EOF"
  const MsgWhiteSpace: string := "unexpected white space"

  // ---------------------------------------------------------------------
  // The token sequence of a text
  // ---------------------------------------------------------------------

  /** pageFileLexBegin on the remaining text s. */
  function BeginTokens(s: string): seq<PageFileLexItem>
    decreases |s|, 1
  {
    if s == [] then [PageFileLexItem(EOF, "")]
    else FieldTokens(s, Key, "")
  }

  /** The Key (t = Key) or KeyOpt (t = KeyOpt) state, having collected field. */
  function FieldTokens(s: string, t: PageFileLexType, field: string): seq<PageFileLexItem>
    decreases |s|, 0
  {
    if s == [] then [PageFileLexItem(Error, MsgEOF)]
    else if s[0] == ':' then [PageFileLexItem(t, field)] + FieldTokens(s[1..], KeyOpt, "")
    else if s[0] == '=' then [PageFileLexItem(t, field)] + ValueTokens(s[1..], "")
    else if IsSpace(s[0]) then [PageFileLexItem(Error, MsgWhiteSpace)]
    else FieldTokens(s[1..], t, field + [s[0]])
  }

  /** pageFileLexVal, having collected field. */
  function ValueTokens(s: string, field: string): seq<PageFileLexItem>
    decreases |s|, 0
  {
    if s == [] then [PageFileLexItem(Error, MsgEOF)]
    else if s[0] == '\n' then [PageFileLexItem(Value, field)] + BeginTokens(s[1..])
    else ValueTokens(s[1..], field + [s[0]])
  }

  /** Every token the lexer sends for input, in order. */
  function Tokens(input: string): seq<PageFileLexItem>
  {
    BeginTokens(input)
  }

  predicate IsFinal(item: PageFileLexItem)
  {
    item.t == EOF || item.t == Error
  }

  /** A token stream whose last token, and only that one, is EOF or Error. */
  predicate Terminated(items: seq<PageFileLexItem>)
  {
    && |items| > 0
    && IsFinal(items[|items| - 1])
    && forall k :: 0 <= k < |items| - 1 ==> !IsFinal(items[k])
  }

  lemma ConsTerminated(x: PageFileLexItem, rest: seq<PageFileLexItem>)
    requires !IsFinal(x) && Terminated(rest)
    ensures Terminated([x] + rest)
  {
    var r := [x] + rest;
    forall k | 0 <= k < |r| - 1 ensures !IsFinal(r[k]) {
      if k > 0 { assert r[k] == rest[k - 1]; }
    }
  }

  // ---------------------------------------------------------------------
  // Properties of the token sequence
  // ---------------------------------------------------------------------

  /** Empty input lexes to exactly one EOF token. */
  lemma EmptyInputIsEOF()
    ensures Tokens("") == [PageFileLexItem(EOF, "")]
  {
  }

  /** EOF or Error is always the last token, and no earlier token is either. */
  lemma {:induction false} TokensTerminated(input: string)
    ensures Terminated(Tokens(input))
  {
    BeginTerminated(input);
  }

  lemma {:induction false} BeginTerminated(s: string)
    ensures Terminated(BeginTokens(s))
    decreases |s|, 1
  {
    if s != [] { FieldTerminated(s, Key, ""); }
  }

  lemma {:induction false} FieldTerminated(s: string, t: PageFileLexType, field: string)
    requires t == Key || t == KeyOpt
    ensures Terminated(FieldTokens(s, t, field))
    decreases |s|, 0
  {
    if s == [] {
    } else if s[0] == ':' {
      FieldTerminated(s[1..], KeyOpt, "");
      ConsTerminated(PageFileLexItem(t, field), FieldTokens(s[1..], KeyOpt, ""));
    } else if s[0] == '=' {
      ValueTerminated(s[1..], "");
      ConsTerminated(PageFileLexItem(t, field), ValueTokens(s[1..], ""));
    } else if IsSpace(s[0]) {
    } else {
      FieldTerminated(s[1..], t, field + [s[0]]);
    }
  }

  lemma {:induction false} ValueTerminated(s: string, field: string)
    ensures Terminated(ValueTokens(s, field))
    decreases |s|, 0
  {
    if s == [] {
    } else if s[0] == '\n' {
      BeginTerminated(s[1..]);
      ConsTerminated(PageFileLexItem(Value, field), BeginTokens(s[1..]));
    } else {
      ValueTerminated(s[1..], field + [s[0]]);
    }
  }

  /** Reassembling a token: a Key as itself, a KeyOpt after ":", a Value
      after "=" and before "\n"; EOF and Error give nothing. */
  function ItemText(item: PageFileLexItem): string
  {
    match item.t
    case Key => item.v
    case KeyOpt => ":" + item.v
    case Value => "=" + item.v + "\n"
    case _ => ""
  }

  function Join(items: seq<PageFileLexItem>): string
  {
    if items == [] then [] else ItemText(items[0]) + Join(items[1..])
  }

  predicate EndsInEOF(items: seq<PageFileLexItem>)
  {
    |items| > 0 && items[|items| - 1].t == EOF
  }

  lemma JoinCons(x: PageFileLexItem, rest: seq<PageFileLexItem>)
    ensures Join([x] + rest) == ItemText(x) + Join(rest)
  {
    assert ([x] + rest)[0] == x && ([x] + rest)[1..] == rest;
  }

  /** When lexing reaches EOF, joining the tokens gives back the whole input:
      no character is lost, added or moved. */
  lemma {:induction false} JoinTokens(input: string)
    requires EndsInEOF(Tokens(input))
    ensures Join(Tokens(input)) == input
  {
    JoinBegin(input);
  }

  lemma {:induction false} JoinBegin(s: string)
    requires EndsInEOF(BeginTokens(s))
    ensures Join(BeginTokens(s)) == s
    decreases |s|, 2
  {
    if s == [] {
      assert Join([PageFileLexItem(EOF, "")]) == ItemText(PageFileLexItem(EOF, "")) + Join([]);
    } else {
      JoinField(s, Key, "");
    }
  }

  /** A token that is not EOF, followed by tokens, ends in EOF only if they do. */
  lemma ConsEndsInEOF(x: PageFileLexItem, rest: seq<PageFileLexItem>)
    requires x.t != EOF && EndsInEOF([x] + rest)
    ensures EndsInEOF(rest)
  {
    assert rest != [] && ([x] + rest)[|[x] + rest| - 1] == rest[|rest| - 1];
  }

  /** The text of a Key or KeyOpt token: the prefix "" or ":" and the field. */
  function FieldPrefix(t: PageFileLexType): string
  {
    if t == Key then "" else ":"
  }

  lemma FieldItemText(t: PageFileLexType, field: string)
    requires t == Key || t == KeyOpt
    ensures ItemText(PageFileLexItem(t, field)) == FieldPrefix(t) + field
  {
  }

  /** s is its first character followed by the rest. */
  lemma HeadTail(s: string)
    requires s != []
    ensures s == [s[0]] + s[1..]
  {
  }

  lemma {:induction false} JoinField(s: string, t: PageFileLexType, field: string)
    requires t == Key || t == KeyOpt
    requires EndsInEOF(FieldTokens(s, t, field))
    ensures Join(FieldTokens(s, t, field)) == ItemText(PageFileLexItem(t, field)) + s
    decreases |s|, 1
  {
    if s[0] == ':' {
      JoinFieldColon(s, t, field);
    } else if s[0] == '=' {
      JoinFieldEquals(s, t, field);
    } else {
      JoinFieldChar(s, t, field);
    }
  }

  lemma {:induction false} JoinFieldColon(s: string, t: PageFileLexType, field: string)
    requires t == Key || t == KeyOpt
    requires s != [] && s[0] == ':'
    requires EndsInEOF(FieldTokens(s, t, field))
    ensures Join(FieldTokens(s, t, field)) == ItemText(PageFileLexItem(t, field)) + s
    decreases |s|, 0
  {
    var x := PageFileLexItem(t, field);
    var rest := FieldTokens(s[1..], KeyOpt, "");
    assert FieldTokens(s, t, field) == [x] + rest;
    ConsEndsInEOF(x, rest);
    JoinField(s[1..], KeyOpt, "");
    JoinCons(x, rest);
    FieldItemText(KeyOpt, "");
    assert Join(rest) == ":" + s[1..];
    HeadTail(s);
  }

  lemma {:induction false} JoinFieldEquals(s: string, t: PageFileLexType, field: string)
    requires t == Key || t == KeyOpt
    requires s != [] && s[0] == '='
    requires EndsInEOF(FieldTokens(s, t, field))
    ensures Join(FieldTokens(s, t, field)) == ItemText(PageFileLexItem(t, field)) + s
    decreases |s|, 0
  {
    var x := PageFileLexItem(t, field);
    var rest := ValueTokens(s[1..], "");
    assert FieldTokens(s, t, field) == [x] + rest;
    ConsEndsInEOF(x, rest);
    JoinValue(s[1..], "");
    JoinCons(x, rest);
    assert "=" + "" == "=";
    HeadTail(s);
  }

  lemma {:induction false} JoinFieldChar(s: string, t: PageFileLexType, field: string)
    requires t == Key || t == KeyOpt
    requires s != [] && s[0] != ':' && s[0] != '='
    requires EndsInEOF(FieldTokens(s, t, field))
    ensures Join(FieldTokens(s, t, field)) == ItemText(PageFileLexItem(t, field)) + s
    decreases |s|, 0
  {
    var c, tail := s[0], s[1..];
    if IsSpace(c) {
      assert false;
    }
    assert FieldTokens(s, t, field) == FieldTokens(tail, t, field + [c]);
    JoinField(tail, t, field + [c]);
    FieldItemText(t, field + [c]);
    FieldItemText(t, field);
    var p := FieldPrefix(t);
    HeadTail(s);
    AppendAssoc(field, [c], tail);
    AppendAssoc(p, field + [c], tail);
    AppendAssoc(p, field, s);
  }

  lemma {:induction false} JoinValue(s: string, field: string)
    requires EndsInEOF(ValueTokens(s, field))
    ensures Join(ValueTokens(s, field)) == "=" + field + s
    decreases |s|, 0
  {
    var c, tail := s[0], s[1..];
    HeadTail(s);
    if c == '\n' {
      var x := PageFileLexItem(Value, field);
      var rest := BeginTokens(tail);
      assert ValueTokens(s, field) == [x] + rest;
      ConsEndsInEOF(x, rest);
      JoinBegin(tail);
      JoinCons(x, rest);
      assert ItemText(x) == "=" + field + "\n";
      AppendAssoc("=" + field, "\n", tail);
    } else {
      assert ValueTokens(s, field) == ValueTokens(tail, field + [c]);
      JoinValue(tail, field + [c]);
      AppendAssoc("=", field, [c]);
      AppendAssoc("=" + field, [c], tail);
    }
  }

  // ---------------------------------------------------------------------
  // Lexing written lines
  // ---------------------------------------------------------------------

  /** One line of a page file: key, key options and value. */
  datatype Line = Line(key: string, opts: seq<string>, value: string)

  /** A character that ends or breaks a key or key option. */
  predicate IsFieldStop(c: char)
  {
    c == ':' || c == '=' || IsSpace(c)
  }

  predicate IsField(f: string)
  {
    forall k :: 0 <= k < |f| ==> !IsFieldStop(f[k])
  }

  predicate WellFormed(line: Line)
  {
    && IsField(line.key)
    && (forall k :: 0 <= k < |line.opts| ==> IsField(line.opts[k]))
    && '\n' !in line.value
  }

  function OptsText(opts: seq<string>): string
  {
    if opts == [] then [] else ":" + opts[0] + OptsText(opts[1..])
  }

  /** The text of one line as the page-file writer puts it: key, each ":"
      opt, "=" value and "\n". */
  function LineText(l: Line): string
  {
    l.key + (OptsText(l.opts) + ("=" + (l.value + "\n")))
  }

  function Render(lines: seq<Line>): string
  {
    if lines == [] then [] else LineText(lines[0]) + Render(lines[1..])
  }

  function OptItems(opts: seq<string>): (r: seq<PageFileLexItem>)
    ensures |r| == |opts|
  {
    if opts == [] then [] else [PageFileLexItem(KeyOpt, opts[0])] + OptItems(opts[1..])
  }

  /** The tokens of one line: a Key, a KeyOpt per option and a Value. */
  function ItemsOf(l: Line): seq<PageFileLexItem>
  {
    [PageFileLexItem(Key, l.key)] + OptItems(l.opts) + [PageFileLexItem(Value, l.value)]
  }

  function LineItems(lines: seq<Line>): seq<PageFileLexItem>
  {
    if lines == [] then [] else ItemsOf(lines[0]) + LineItems(lines[1..])
  }

  /** Well-formed lines lex to their key, key options and value, in order,
      followed by EOF; empty key options and empty values included. */
  lemma {:induction false} LexRender(lines: seq<Line>)
    requires forall k :: 0 <= k < |lines| ==> WellFormed(lines[k])
    ensures Tokens(Render(lines)) == LineItems(lines) + [PageFileLexItem(EOF, "")]
  {
    if lines != [] {
      var rest := Render(lines[1..]);
      LexRender(lines[1..]);
      LexLine(lines[0], rest);
      var eof := [PageFileLexItem(EOF, "")];
      assert Tokens(Render(lines)) == ItemsOf(lines[0]) + (LineItems(lines[1..]) + eof);
      assert LineItems(lines) == ItemsOf(lines[0]) + LineItems(lines[1..]);
    }
  }

  /** One well-formed line, followed by any text, lexes to the line's tokens
      followed by what the text lexes to. */
  lemma LexLine(l: Line, rest: string)
    requires WellFormed(l)
    ensures BeginTokens(LineText(l) + rest) == ItemsOf(l) + BeginTokens(rest)
  {
    var tail := l.value + ("\n" + rest);
    var afterKey := OptsText(l.opts) + ("=" + tail);
    assert LineText(l) + rest == l.key + afterKey;
    assert |afterKey| > 0;
    LexFieldRest(l.key, afterKey, Key, "");
    assert "" + l.key == l.key;
    LexOpts(l.opts, tail, Key, l.key);
    LexValueRest(l.value, rest, "");
    assert "" + l.value == l.value;
  }

  lemma {:induction false} LexFieldRest(f: string, rest: string, t: PageFileLexType, acc: string)
    requires IsField(f)
    ensures FieldTokens(f + rest, t, acc) == FieldTokens(rest, t, acc + f)
  {
    if f != [] {
      assert (f + rest)[0] == f[0] && (f + rest)[1..] == f[1..] + rest;
      assert !IsFieldStop(f[0]);
      LexFieldRest(f[1..], rest, t, acc + [f[0]]);
      assert acc + [f[0]] + f[1..] == acc + f;
    } else {
      assert f + rest == rest && acc + f == acc;
    }
  }

  /** The key options of a line, then "=" and the rest. */
  lemma {:induction false} LexOpts(opts: seq<string>, rest: string, t: PageFileLexType, acc: string)
    requires forall k :: 0 <= k < |opts| ==> IsField(opts[k])
    ensures FieldTokens(OptsText(opts) + ("=" + rest), t, acc)
            == [PageFileLexItem(t, acc)] + OptItems(opts) + ValueTokens(rest, "")
  {
    var s := OptsText(opts) + ("=" + rest);
    if opts == [] {
      assert s == "=" + rest && s[0] == '=' && s[1..] == rest;
    } else {
      var after := OptsText(opts[1..]) + ("=" + rest);
      assert s == ":" + (opts[0] + after);
      assert s[0] == ':' && s[1..] == opts[0] + after;
      LexFieldRest(opts[0], after, KeyOpt, "");
      assert "" + opts[0] == opts[0];
      LexOpts(opts[1..], rest, KeyOpt, opts[0]);
      assert FieldTokens(s, t, acc) == [PageFileLexItem(t, acc)] + FieldTokens(s[1..], KeyOpt, "");
    }
  }

  lemma {:induction false} LexValueRest(v: string, rest: string, acc: string)
    requires '\n' !in v
    ensures ValueTokens(v + ("\n" + rest), acc) == [PageFileLexItem(Value, acc + v)] + BeginTokens(rest)
  {
    var s := v + ("\n" + rest);
    if v == [] {
      assert s == "\n" + rest && s[0] == '\n' && s[1..] == rest;
      assert acc + v == acc;
    } else {
      assert s[0] == v[0] && s[1..] == v[1..] + ("\n" + rest);
      assert v[0] != '\n';
      LexValueRest(v[1..], rest, acc + [v[0]]);
      assert acc + [v[0]] + v[1..] == acc + v;
    }
  }

  /** White space, newline included, inside a key or key option is an Error
      token and nothing follows it. */
  lemma WhiteSpaceInField(f: string, c: char, rest: string, t: PageFileLexType, acc: string)
    requires IsField(f) && IsSpace(c)
    ensures FieldTokens(f + [c] + rest, t, acc) == [PageFileLexItem(Error, MsgWhiteSpace)]
  {
    LexFieldRest(f, [c] + rest, t, acc);
    assert f + [c] + rest == f + ([c] + rest);
  }

  /** A line that starts with white space, or whose key contains it, fails. */
  lemma WhiteSpaceInKey(key: string, c: char, rest: string)
    requires IsField(key) && IsSpace(c)
    ensures Tokens(key + [c] + rest) == [PageFileLexItem(Error, MsgWhiteSpace)]
  {
    WhiteSpaceInField(key, c, rest, Key, "");
  }

  /** Input that ends inside a key, key option or value gives Error, never
      EOF: only empty input or input ending in "\n" can reach EOF. */
  lemma {:induction false} EOFOnlyAfterNewline(input: string)
    requires EndsInEOF(Tokens(input))
    ensures input == [] || input[|input| - 1] == '\n'
  {
    BeginEOF(input);
  }

  lemma {:induction false} BeginEOF(s: string)
    requires EndsInEOF(BeginTokens(s))
    ensures s == [] || s[|s| - 1] == '\n'
    decreases |s|, 1
  {
    if s != [] { FieldEOF(s, Key, ""); }
  }

  lemma {:induction false} FieldEOF(s: string, t: PageFileLexType, field: string)
    requires t == Key || t == KeyOpt
    requires EndsInEOF(FieldTokens(s, t, field))
    ensures s != [] && s[|s| - 1] == '\n'
    decreases |s|, 0
  {
    var x := PageFileLexItem(t, field);
    if s[0] == ':' {
      ConsEndsInEOF(x, FieldTokens(s[1..], KeyOpt, ""));
      FieldEOF(s[1..], KeyOpt, "");
    } else if s[0] == '=' {
      ConsEndsInEOF(x, ValueTokens(s[1..], ""));
      ValueEOF(s[1..], "");
    } else {
      FieldEOF(s[1..], t, field + [s[0]]);
    }
    assert s[1..][|s[1..]| - 1] == s[|s| - 1];
  }

  lemma {:induction false} ValueEOF(s: string, field: string)
    requires EndsInEOF(ValueTokens(s, field))
    ensures s != [] && s[|s| - 1] == '\n'
    decreases |s|, 0
  {
    if s[0] == '\n' {
      ConsEndsInEOF(PageFileLexItem(Value, field), BeginTokens(s[1..]));
      BeginEOF(s[1..]);
    } else {
      ValueEOF(s[1..], field + [s[0]]);
    }
    if |s| > 1 { assert s[1..][|s[1..]| - 1] == s[|s| - 1]; }
  }

  // ---------------------------------------------------------------------
  // The lexer
  // ---------------------------------------------------------------------

  /** The state functions of the lexer; Stop is the nil state. */
  datatype PageFileLexState = Begin | KeyOrKeyOpt(t: PageFileLexType) | Val | Stop

  /** Orders the states for termination: Begin moves on to a key without
      reading, every other state reads or stops. */
  function Rank(state: PageFileLexState): nat
  {
    match state
    case Begin => 2
    case Stop => 0
    case _ => 1
  }

  class PageFileLexer {
    /** The text the underlying reader yields. */
    const input: string
    /** Runes read so far. */
    var pos: nat
    /** Whether the last read rune may be unread (bufio.Reader.UnreadRune). */
    var canUnread: bool
    /** The items sent to the channel so far. */
    var items: seq<PageFileLexItem>

    ghost predicate Valid()
      reads this
    {
      pos <= |input| && (canUnread ==> pos > 0)
    }

    /** The tokens still to be sent from state, at the current position. */
    ghost function Pending(state: PageFileLexState): seq<PageFileLexItem>
      reads this
      requires Valid()
    {
      match state
      case Begin => BeginTokens(input[pos..])
      case KeyOrKeyOpt(t) => FieldTokens(input[pos..], t, "")
      case Val => ValueTokens(input[pos..], "")
      case Stop => []
    }

    constructor (input: string)
      ensures Valid() && this.input == input && pos == 0 && items == []
    {
      this.input := input;
      pos := 0;
      canUnread := false;
      items := [];
    }

    /** The next rune, or eof at the end of the input. */
    method Next() returns (r: char, eof: bool)
      requires Valid()
      modifies this`pos, this`canUnread
      ensures Valid()
      ensures eof <==> old(pos) == |input|
      ensures eof ==> pos == old(pos) && !canUnread
      ensures !eof ==> r == input[old(pos)] && pos == old(pos) + 1 && canUnread
    {
      if pos == |input| {
        r, eof := ' ', true;
        canUnread := false;
      } else {
        r, eof := input[pos], false;
        pos := pos + 1;
        canUnread := true;
      }
    }

    /** Unreads the last rune; the reader only allows this right after a read. */
    method Backup()
      requires Valid() && canUnread
      modifies this`pos, this`canUnread
      ensures Valid() && pos == old(pos) - 1 && !canUnread
    {
      pos := pos - 1;
      canUnread := false;
    }

    method Emit(t: PageFileLexType, v: string, succ: PageFileLexState) returns (next: PageFileLexState)
      modifies this`items
      ensures items == old(items) + [PageFileLexItem(t, v)] && next == succ
    {
      items := items + [PageFileLexItem(t, v)];
      next := succ;
    }

    method Errorf(msg: string) returns (next: PageFileLexState)
      modifies this`items
      ensures items == old(items) + [PageFileLexItem(Error, msg)] && next == Stop
    {
      next := Emit(Error, msg, Stop);
    }

    method Eof() returns (next: PageFileLexState)
      modifies this`items
      ensures items == old(items) + [PageFileLexItem(EOF, "")] && next == Stop
    {
      next := Emit(EOF, "", Stop);
    }

    /** pageFileLexBegin: EOF at the end of the input, otherwise a key follows. */
    method LexBegin() returns (next: PageFileLexState)
      requires Valid()
      modifies this`pos, this`canUnread, this`items
      ensures Valid() && pos == old(pos)
      ensures next == Stop || next == KeyOrKeyOpt(Key)
      ensures items + Pending(next) == old(items) + old(Pending(Begin))
    {
      var _, eof := Next();
      if !eof {
        Backup();
        next := KeyOrKeyOpt(Key);
      } else {
        next := Eof();
      }
    }

    /** pageFileLexKeyOrKeyOptGenerator(t): collects a key (t = Key) or key
        option (t = KeyOpt) up to ":" or "=". */
    method LexKeyOrKeyOpt(t: PageFileLexType) returns (next: PageFileLexState)
      requires Valid()
      modifies this`pos, this`canUnread, this`items
      ensures Valid() && pos >= old(pos)
      ensures next != Stop ==> pos > old(pos)
      ensures items + Pending(next) == old(items) + old(Pending(KeyOrKeyOpt(t)))
    {
      ghost var goal := Pending(KeyOrKeyOpt(t));
      var field := "";
      var done := false;
      next := Stop;
      while !done
        invariant Valid() && old(pos) <= pos
        invariant !done ==> items == old(items) && FieldTokens(input[pos..], t, field) == goal
        invariant done ==> items + Pending(next) == old(items) + goal
        invariant done && next != Stop ==> pos > old(pos)
        decreases !done, |input| - pos
      {
        ghost var rest := input[pos..];
        var r, eof := Next();
        if eof {
          next := Errorf(MsgEOF);
          done := true;
        } else {
          assert rest[0] == r && rest[1..] == input[pos..];
          if r == ':' {
            next := Emit(t, field, KeyOrKeyOpt(KeyOpt));
            assert goal == [PageFileLexItem(t, field)] + Pending(next);
            done := true;
          } else if r == '=' {
            next := Emit(t, field, Val);
            assert goal == [PageFileLexItem(t, field)] + Pending(next);
            done := true;
          } else if IsSpace(r) {
            next := Errorf(MsgWhiteSpace);
            assert goal == [PageFileLexItem(Error, MsgWhiteSpace)];
            done := true;
          } else {
            field := field + [r];
          }
        }
      }
    }

    /** pageFileLexVal: the value is everything up to the next newline. */
    method LexVal() returns (next: PageFileLexState)
      requires Valid()
      modifies this`pos, this`canUnread, this`items
      ensures Valid() && pos >= old(pos)
      ensures next != Stop ==> pos > old(pos)
      ensures items + Pending(next) == old(items) + old(Pending(Val))
    {
      ghost var goal := Pending(Val);
      var field := "";
      var done := false;
      next := Stop;
      while !done
        invariant Valid() && old(pos) <= pos
        invariant !done ==> items == old(items) && ValueTokens(input[pos..], field) == goal
        invariant done ==> items + Pending(next) == old(items) + goal
        invariant done && next != Stop ==> pos > old(pos)
        decreases !done, |input| - pos
      {
        ghost var rest := input[pos..];
        var r, eof := Next();
        if eof {
          next := Errorf(MsgEOF);
          done := true;
        } else {
          assert rest[0] == r && rest[1..] == input[pos..];
          if r == '\n' {
            next := Emit(Value, field, Begin);
            assert goal == [PageFileLexItem(Value, field)] + Pending(next);
            done := true;
          } else {
            field := field + [r];
          }
        }
      }
    }

    /** run: steps through the state functions until one returns nil. */
    method Run()
      requires Valid() && pos == 0 && items == []
      modifies this
      ensures items == Tokens(input)
    {
      var state := Begin;
      while state != Stop
        invariant Valid()
        invariant items + Pending(state) == Tokens(input)
        decreases |input| - pos, Rank(state)
      {
        match state
        case Begin =>
          state := LexBegin();
        case KeyOrKeyOpt(t) =>
          state := LexKeyOrKeyOpt(t);
        case Val =>
          state := LexVal();
      }
    }
  }

  /** lexPageFile: lexes the whole input and returns every item sent. */
  method LexPageFile(input: string) returns (items: seq<PageFileLexItem>)
    ensures items == Tokens(input)
    ensures Terminated(items)
  {
    var lexer := new PageFileLexer(input);
    lexer.Run();
    items := lexer.items;
    TokensTerminated(input);
  }
}
