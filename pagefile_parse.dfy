/** The parser that builds a PageFile from the tokens of the page-file lexer
    (pagefile_parse.go). The first item must be "version"; every later item
    without key options sets a field of the page, and every item with key
    options fills the revision stored under the time in its first option.
    Any error leaves the empty PageFile. */
module PageFileParse {
  import opened Base
  import opened PageFileLex
  import opened PageFiles

  // ---------------------------------------------------------------------
  // Reading tokens
  // ---------------------------------------------------------------------

  /** What pageFileParser.nextType gives back: the value of the token it
      looked for, io.EOF itself, or another error. */
  datatype Received = Got(v: string) | AtEOF | Failed(msg: string)

  /** The message of an error nextType gave back. */
  function ReceivedError(r: Received): string
    requires !r.Got?
  {
    if r.AtEOF? then MsgEOF else r.msg
  }

  /** "%v" of a pageFileLexItem, which prints as "{type value}". */
  function ItemString(item: PageFileLexItem): string
  {
    "{" + Decimal(TypeCode(item.t)) + " " + item.v + "}"
  }

  /** The error of nextType when max tokens were read without one of type want. */
  function NotFoundError(want: PageFileLexType, max: nat): string
  {
    "no item with type " + Decimal(TypeCode(want)) + " found in " + Decimal(max) + " messages"
  }

  /** The error of acceptItem when a token has another type than expected. */
  function TypeError(expected: PageFileLexType, received: PageFileLexType): string
  {
    "type " + Decimal(TypeCode(expected)) + " was expected, received " + Decimal(TypeCode(received))
  }

  /** The error of acceptItem when a token has another value than expected. */
  function ValueError(expected: string, received: string): string
  {
    "value " + expected + " was expected, received " + received
  }

  /** nextType(want, max) from token i, count tokens having been read by it
      already: the first token of type want, an EOF or an Error ends the
      search, every other token is skipped, and when max is positive at most
      max tokens are read in all. Gives what nextType returns and the index
      after the last token it read. */
  function NextTypeAt(toks: seq<PageFileLexItem>, i: nat, want: PageFileLexType, max: int, count: nat): (r: (Received, nat))
    requires Terminated(toks) && i < |toks| && !IsFinal(PageFileLexItem(want, ""))
    ensures i <= r.1 <= |toks|
    ensures r.0.Got? ==> i < r.1 < |toks| && toks[r.1 - 1] == PageFileLexItem(want, r.0.v)
    ensures r.0.AtEOF? ==> i < r.1 && toks[r.1 - 1].t == EOF
    ensures r.0.Failed? && max <= 0 ==> i < r.1 && toks[r.1 - 1] == PageFileLexItem(Error, r.0.msg)
    ensures 0 < max && count <= max ==> r.1 - i <= max - count
    decreases |toks| - i
  {
    if max > 0 && count >= max then
      (Failed(NotFoundError(want, max)), i)
    else if toks[i].t == want then (Got(toks[i].v), i + 1)
    else if toks[i].t == EOF then (AtEOF, i + 1)
    else if toks[i].t == Error then (Failed(toks[i].v), i + 1)
    else NextTypeAt(toks, i + 1, want, max, count + 1)
  }

  /** acceptItem(expected...) from token i: every token read must have the
      type, and then the value, of the expected one in its place. Gives the
      error, if any, and the index after the last token read. */
  function AcceptAt(toks: seq<PageFileLexItem>, i: nat, expected: seq<PageFileLexItem>): (r: (Option<string>, nat))
    requires Terminated(toks) && i < |toks|
    requires forall k :: 0 <= k < |expected| ==> !IsFinal(expected[k])
    ensures i <= r.1 <= |toks| && r.1 <= i + |expected|
    ensures r.0.None? ==> r.1 == i + |expected| < |toks| && toks[i..r.1] == expected
    ensures r.0.Some? ==> i < r.1
    decreases |expected|
  {
    if expected == [] then (None, i)
    else
      var recv := toks[i];
      if recv.t != expected[0].t then
        (Some(TypeError(expected[0].t, recv.t)), i + 1)
      else if recv.v != expected[0].v then
        (Some(ValueError(expected[0].v, recv.v)), i + 1)
      else
        var r := AcceptAt(toks, i + 1, expected[1..]);
        assert recv == expected[0];
        assert toks[i..r.1] == [recv] + toks[i + 1..r.1];
        r
  }

  /** One token read by acceptItem: a mismatch ends it with an error, a
      match goes on with the rest of the expected tokens. */
  lemma AcceptStep(toks: seq<PageFileLexItem>, i: nat, expected: seq<PageFileLexItem>)
    requires Terminated(toks) && i < |toks| && expected != []
    requires forall k :: 0 <= k < |expected| ==> !IsFinal(expected[k])
    ensures toks[i].t != expected[0].t ==> AcceptAt(toks, i, expected) == (Some(TypeError(expected[0].t, toks[i].t)), i + 1)
    ensures toks[i].t == expected[0].t && toks[i].v != expected[0].v ==>
              AcceptAt(toks, i, expected) == (Some(ValueError(expected[0].v, toks[i].v)), i + 1)
    ensures toks[i] == expected[0] ==> i + 1 < |toks| && AcceptAt(toks, i, expected) == AcceptAt(toks, i + 1, expected[1..])
  {
    if toks[i] == expected[0] {
      assert !IsFinal(expected[0]);
    }
  }

  // ---------------------------------------------------------------------
  // Items
  // ---------------------------------------------------------------------

  /** The keys pageFileParseMainItem knows. */
  predicate IsMainKey(key: string)
  {
    key == "name" || key == "time" || key == "text" || key == "author" || key == "host" || key == "rev"
  }

  /** pageFileParseMainItem: an item without key options sets the page's
      field of that name, once; unknown keys are ignored. net.ParseIP is
      parseIP, which gives the empty IP for text that is not an address. */
  function MainItem(pf: PageFile, key: string, value: string, parseIP: string -> IP): (r: Result<PageFile, string>)
    ensures !IsMainKey(key) ==> r == Ok(pf)
    ensures r.Ok? ==> r.value.version == pf.version && r.value.revs == pf.revs && r.value.deleted == pf.deleted
  {
    if key == "name" then
      if pf.name != "" then Err("name field was already set") else Ok(pf.(name := value))
    else if key == "time" then
      if pf.time != ZeroTime then Err("time field was already set")
      else if ParseInt(value).None? then Err("time parsing errored, " + ParseIntError(value))
      else Ok(pf.(time := ParseInt(value).value))
    else if key == "text" then
      if pf.text != "" then Err("text field was already set") else Ok(pf.(text := value))
    else if key == "author" then
      if pf.author != "" then Err("author field was already set") else Ok(pf.(author := value))
    else if key == "host" then
      if |pf.host| != 0 then Err("host field was already set")
      else if parseIP(value) == [] then Err("parsing host " + value + " errored")
      else Ok(pf.(host := parseIP(value)))
    else if key == "rev" then
      if pf.rev != 0 then Err("rev field was already set")
      else if ParseInt(value).None? then Err("rev parsing errored, " + ParseIntError(value))
      else Ok(pf.(rev := ParseInt(value).value))
    else
      Ok(pf)
  }

  /** The keys pageFileParseRev knows. */
  predicate IsRevKey(key: string)
  {
    key == "author" || key == "host" || key == "diff"
  }

  /** The revision stored under unix, or the zero one. */
  function RevAt(pf: PageFile, unix: int): PageFileRevision
  {
    if unix in pf.revs then pf.revs[unix] else EmptyRevision
  }

  /** pageFileParseRev: an item with key options fills a field of the
      revision stored under the time in its first option, once. An empty
      value, a first option that is not an integer or an unknown key leaves
      the page file as it is. */
  function RevItem(pf: PageFile, key: string, value: string, opts: seq<string>, parseIP: string -> IP): (r: Result<PageFile, string>)
    requires opts != []
    ensures value == "" || ParseInt(opts[0]).None? || !IsRevKey(key) ==> r == Ok(pf)
    ensures r.Ok? ==> r.value.(revs := pf.revs) == pf
    ensures r.Ok? && r.value != pf ==>
      && ParseInt(opts[0]).Some?
      && var unix := ParseInt(opts[0]).value;
         unix in r.value.revs && r.value.revs == pf.revs[unix := r.value.revs[unix]]
  {
    if value == "" || ParseInt(opts[0]).None? then Ok(pf)
    else
      var unix := ParseInt(opts[0]).value;
      var pfr := RevAt(pf, unix);
      if key == "author" then
        if pfr.author != "" then Err("author field was already set")
        else Ok(pf.(revs := pf.revs[unix := pfr.(author := value)]))
      else if key == "host" then
        if |pfr.host| != 0 then Err("host field was already set")
        else if parseIP(value) == [] then Err("parsing host " + value + " errored")
        else Ok(pf.(revs := pf.revs[unix := pfr.(host := parseIP(value))]))
      else if key == "diff" then
        if pfr.diffAgainst != ZeroTime || pfr.diff != "" then Err("diff field was already set")
        else if |opts| < 2 then Err("diff requires at least two keyopts")
        else if ParseInt(opts[1]).None? then Err("time parsing errored, " + ParseIntError(opts[1]))
        else Ok(pf.(revs := pf.revs[unix := pfr.(diffAgainst := ParseInt(opts[1]).value, diff := value)]))
      else
        Ok(pf)
  }

  /** An item with its value: a main item without key options, a revision
      item with them. */
  function ApplyItem(pf: PageFile, key: string, value: string, opts: seq<string>, parseIP: string -> IP): Result<PageFile, string>
  {
    if opts == [] then MainItem(pf, key, value, parseIP) else RevItem(pf, key, value, opts, parseIP)
  }

  /** The value of an item: in a urlencoded page file, "+" is escaped and
      the value is then percent-decoded, so that "+" stays literal. */
  function DecodeValue(raw: string, urlencoded: bool): Result<string, string>
  {
    if urlencoded then QueryUnescape(EscapePlus(raw)) else Ok(raw)
  }

  // ---------------------------------------------------------------------
  // The parse of a token sequence
  // ---------------------------------------------------------------------

  const VersionKey: PageFileLexItem := PageFileLexItem(Key, "version")

  function VersionError(e: string): string
  {
    "initial version expected, " + e
  }

  /** pageFileParseVersion, then pageFileParseFields: the outcome of parsing
      toks. The urlencoded flag is whether the version contains
      "urlencoded=1". */
  function ParseTokens(toks: seq<PageFileLexItem>, parseIP: string -> IP): Result<PageFile, string>
    requires Terminated(toks)
  {
    var (e, i) := AcceptAt(toks, 0, [VersionKey]);
    if e.Some? then Err(VersionError(e.value))
    else
      var (r, j) := NextTypeAt(toks, i, Value, 1, 0);
      if !r.Got? then Err(VersionError(ReceivedError(r)))
      else ParseFields(toks, j, EmptyPageFile.(version := r.v), Contains(r.v, "urlencoded=1"), parseIP)
  }

  /** pageFileParseFields at token i: the next Key starts an item, EOF ends
      the parse. */
  function ParseFields(toks: seq<PageFileLexItem>, i: nat, pf: PageFile, urlencoded: bool, parseIP: string -> IP): Result<PageFile, string>
    requires Terminated(toks) && i < |toks|
    decreases |toks| - i, 0
  {
    var (r, j) := NextTypeAt(toks, i, Key, 0, 0);
    match r
    case AtEOF => Ok(pf)
    case Failed(m) => Err("parsing key errored, " + m)
    case Got(key) => ParseItem(toks, j, pf, urlencoded, parseIP, key, [])
  }

  /** The item loop of pageFileParseFields at token i, after key and the key
      options opts: more key options, or the value that ends the item. */
  function ParseItem(toks: seq<PageFileLexItem>, i: nat, pf: PageFile, urlencoded: bool, parseIP: string -> IP,
                     key: string, opts: seq<string>): Result<PageFile, string>
    requires Terminated(toks) && i < |toks|
    decreases |toks| - i, 0
  {
    var item := toks[i];
    match item.t
    case KeyOpt => ParseItem(toks, i + 1, pf, urlencoded, parseIP, key, opts + [item.v])
    case Value => FinishItem(toks, i + 1, pf, urlencoded, parseIP, Line(key, opts, item.v))
    case _ => Err("received unexpected item type " + ItemString(item))
  }

  /** A whole item, its value not yet decoded, is applied to the page
      file, and the fields after it are parsed from token i. */
  function FinishItem(toks: seq<PageFileLexItem>, i: nat, pf: PageFile, urlencoded: bool, parseIP: string -> IP,
                      l: Line): Result<PageFile, string>
    requires Terminated(toks) && i < |toks|
    decreases |toks| - i, 1
  {
    match ApplyLine(pf, l, urlencoded, parseIP)
    case Err(e) => Err(e)
    case Ok(pf2) => ParseFields(toks, i, pf2, urlencoded, parseIP)
  }

  /** A key option joins the item's options. */
  lemma ItemOpt(toks: seq<PageFileLexItem>, i: nat, pf: PageFile, urlencoded: bool, parseIP: string -> IP,
                key: string, opts: seq<string>)
    requires Terminated(toks) && i < |toks| && toks[i].t == KeyOpt
    ensures i + 1 < |toks|
    ensures ParseItem(toks, i, pf, urlencoded, parseIP, key, opts)
            == ParseItem(toks, i + 1, pf, urlencoded, parseIP, key, opts + [toks[i].v])
  {
  }

  /** The token after the key options ends the item: a Value goes on to the
      next fields, anything else is an error. */
  lemma ItemEnd(toks: seq<PageFileLexItem>, i: nat, pf: PageFile, urlencoded: bool, parseIP: string -> IP,
                key: string, opts: seq<string>)
    requires Terminated(toks) && i < |toks| && toks[i].t != KeyOpt
    ensures toks[i].t != Value ==> ParseItem(toks, i, pf, urlencoded, parseIP, key, opts)
                                   == Err("received unexpected item type " + ItemString(toks[i]))
    ensures toks[i].t == Value ==>
              && i + 1 < |toks|
              && ParseItem(toks, i, pf, urlencoded, parseIP, key, opts)
                 == FinishItem(toks, i + 1, pf, urlencoded, parseIP, Line(key, opts, toks[i].v))
  {
  }

  /** ParsePageFile on a text: its tokens, parsed. */
  function ParseText(input: string, parseIP: string -> IP): Result<PageFile, string>
  {
    TokensTerminated(input);
    ParseTokens(Tokens(input), parseIP)
  }

  // ---------------------------------------------------------------------
  // Properties of the parse
  // ---------------------------------------------------------------------

  /** Input that is not even a version line fails; the empty input among it. */
  lemma EmptyInputFails(parseIP: string -> IP)
    ensures ParseText("", parseIP) == Err(VersionError(TypeError(Key, EOF)))
  {
    var toks := [PageFileLexItem(EOF, "")];
    assert Tokens("") == toks;
    assert AcceptAt(toks, 0, [VersionKey]).0 == Some(TypeError(Key, EOF));
  }

  /** A parse succeeds only when the first two tokens are the Key "version"
      and a Value, and that value is the page file's version. */
  lemma {:induction false} VersionFirst(toks: seq<PageFileLexItem>, parseIP: string -> IP)
    requires Terminated(toks) && ParseTokens(toks, parseIP).Ok?
    ensures 2 <= |toks| && toks[0] == VersionKey && toks[1].t == Value
    ensures ParseTokens(toks, parseIP).value.version == toks[1].v
  {
    var (e, i) := AcceptAt(toks, 0, [VersionKey]);
    assert e.None? && i == 1;
    assert toks[0..1] == [VersionKey];
    assert toks[0] == VersionKey;
    var (r, j) := NextTypeAt(toks, 1, Value, 1, 0);
    assert r.Got?;
    assert j == 2;
    FieldsOk(toks, j, EmptyPageFile.(version := r.v), Contains(r.v, "urlencoded=1"), parseIP);
  }

  /** A version item with key options fails: nextType reads the KeyOpt and
      gives up after that one token. */
  lemma VersionWithKeyOpts(toks: seq<PageFileLexItem>, parseIP: string -> IP)
    requires Terminated(toks) && 2 <= |toks| && toks[0] == VersionKey && toks[1].t == KeyOpt
    ensures ParseTokens(toks, parseIP) == Err(VersionError(NotFoundError(Value, 1)))
  {
    assert AcceptAt(toks, 0, [VersionKey]) == (None, 1);
    assert NextTypeAt(toks, 2, Value, 1, 1).0 == Failed(NotFoundError(Value, 1));
  }

  /** A successful parse of the fields ends at the EOF token that closes the
      stream, and keeps the version and the deletion time it started with. */
  lemma {:induction false} FieldsOk(toks: seq<PageFileLexItem>, i: nat, pf: PageFile, urlencoded: bool, parseIP: string -> IP)
    requires Terminated(toks) && i < |toks|
    ensures var r := ParseFields(toks, i, pf, urlencoded, parseIP);
      r.Ok? ==> toks[|toks| - 1].t == EOF && r.value.version == pf.version && r.value.deleted == pf.deleted
    decreases |toks| - i, 0
  {
    var (r, j) := NextTypeAt(toks, i, Key, 0, 0);
    if r.Got? {
      ItemOk(toks, j, pf, urlencoded, parseIP, r.v, []);
    }
  }

  lemma {:induction false} ItemOk(toks: seq<PageFileLexItem>, i: nat, pf: PageFile, urlencoded: bool, parseIP: string -> IP,
                                  key: string, opts: seq<string>)
    requires Terminated(toks) && i < |toks|
    ensures var r := ParseItem(toks, i, pf, urlencoded, parseIP, key, opts);
      r.Ok? ==> toks[|toks| - 1].t == EOF && r.value.version == pf.version && r.value.deleted == pf.deleted
    decreases |toks| - i, 1
  {
    if toks[i].t == KeyOpt {
      ItemOpt(toks, i, pf, urlencoded, parseIP, key, opts);
      ItemOk(toks, i + 1, pf, urlencoded, parseIP, key, opts + [toks[i].v]);
    } else {
      ItemEnd(toks, i, pf, urlencoded, parseIP, key, opts);
      if toks[i].t == Value {
        var a := ApplyLine(pf, Line(key, opts, toks[i].v), urlencoded, parseIP);
        if a.Ok? {
          FieldsOk(toks, i + 1, a.value, urlencoded, parseIP);
        }
      }
    }
  }

  /** An item never sets the time of a revision. */
  lemma ApplyLineKeepsRevisionTimes(pf: PageFile, l: Line, urlencoded: bool, parseIP: string -> IP, pf2: PageFile)
    requires RevisionTimesUnset(pf) && ApplyLine(pf, l, urlencoded, parseIP) == Ok(pf2)
    ensures RevisionTimesUnset(pf2)
  {
    var v := DecodeValue(l.value, urlencoded).value;
    if l.opts != [] && v != "" && ParseInt(l.opts[0]).Some? {
      assert RevAt(pf, ParseInt(l.opts[0]).value).time == ZeroTime;
    }
  }

  /** A successful parse of the fields leaves the time of every revision
      unset, as it found it. */
  lemma {:induction false} FieldsKeepRevisionTimes(toks: seq<PageFileLexItem>, i: nat, pf: PageFile, urlencoded: bool, parseIP: string -> IP)
    requires Terminated(toks) && i < |toks| && RevisionTimesUnset(pf)
    ensures var r := ParseFields(toks, i, pf, urlencoded, parseIP);
      r.Ok? ==> RevisionTimesUnset(r.value)
    decreases |toks| - i, 0
  {
    var (r, j) := NextTypeAt(toks, i, Key, 0, 0);
    if r.Got? {
      ItemKeepsRevisionTimes(toks, j, pf, urlencoded, parseIP, r.v, []);
    }
  }

  lemma {:induction false} ItemKeepsRevisionTimes(toks: seq<PageFileLexItem>, i: nat, pf: PageFile, urlencoded: bool, parseIP: string -> IP,
                                                  key: string, opts: seq<string>)
    requires Terminated(toks) && i < |toks| && RevisionTimesUnset(pf)
    ensures var r := ParseItem(toks, i, pf, urlencoded, parseIP, key, opts);
      r.Ok? ==> RevisionTimesUnset(r.value)
    decreases |toks| - i, 1
  {
    if toks[i].t == KeyOpt {
      ItemOpt(toks, i, pf, urlencoded, parseIP, key, opts);
      ItemKeepsRevisionTimes(toks, i + 1, pf, urlencoded, parseIP, key, opts + [toks[i].v]);
    } else {
      ItemEnd(toks, i, pf, urlencoded, parseIP, key, opts);
      if toks[i].t == Value {
        var a := ApplyLine(pf, Line(key, opts, toks[i].v), urlencoded, parseIP);
        if a.Ok? {
          ApplyLineKeepsRevisionTimes(pf, Line(key, opts, toks[i].v), urlencoded, parseIP, a.value);
          FieldsKeepRevisionTimes(toks, i + 1, a.value, urlencoded, parseIP);
        }
      }
    }
  }

  /** No revision of a parsed page file has a time of its own: the parser
      reads none, so Revisions hands out views with the zero time. */
  lemma ParsedRevisionTimesUnset(input: string, parseIP: string -> IP)
    ensures ParseText(input, parseIP).Ok? ==> RevisionTimesUnset(ParseText(input, parseIP).value)
  {
    TokensTerminated(input);
    var toks := Tokens(input);
    var (e, i) := AcceptAt(toks, 0, [VersionKey]);
    if e.None? {
      var (r, j) := NextTypeAt(toks, i, Value, 1, 0);
      if r.Got? {
        FieldsKeepRevisionTimes(toks, j, EmptyPageFile.(version := r.v), Contains(r.v, "urlencoded=1"), parseIP);
      }
    }
  }

  /** The views Revisions makes of the revisions of a parsed page file all
      carry the zero time, whatever times the page file names. */
  lemma ParsedViewTimes(input: string, parseIP: string -> IP, fuel: nat, k: nat)
    requires ParseText(input, parseIP).Ok?
    requires var pf := ParseText(input, parseIP).value;
      |pf.revs| > 0 && k < |WalkFrom(pf, OlderText, Lookup(pf.revs, pf.time), pf.text, pf.rev, fuel).views|
    ensures RevisionViews(ParseText(input, parseIP).value, fuel).views[k].time == ZeroTime
  {
    var pf := ParseText(input, parseIP).value;
    ParsedRevisionTimesUnset(input, parseIP);
    WalkViewTimes(pf, OlderText, Lookup(pf.revs, pf.time), pf.text, pf.rev, fuel);
  }

  /** Only a text that ends in a newline parses: input that ends inside a
      line, the empty input too, is an error. */
  lemma ParsedTextEndsInNewline(input: string, parseIP: string -> IP)
    requires ParseText(input, parseIP).Ok?
    ensures input != [] && input[|input| - 1] == '\n'
  {
    var toks := Tokens(input);
    TokensTerminated(input);
    VersionFirst(toks, parseIP);
    FieldsLast(toks, parseIP);
    EOFOnlyAfterNewline(input);
    if input == [] {
      EmptyInputFails(parseIP);
    }
  }

  /** A successful parse ends at the EOF token. */
  lemma FieldsLast(toks: seq<PageFileLexItem>, parseIP: string -> IP)
    requires Terminated(toks) && ParseTokens(toks, parseIP).Ok?
    ensures EndsInEOF(toks)
  {
    VersionFirst(toks, parseIP);
    var r := NextTypeAt(toks, 1, Value, 1, 0);
    FieldsOk(toks, 2, EmptyPageFile.(version := toks[1].v), Contains(toks[1].v, "urlencoded=1"), parseIP);
  }

  /** Setting a main field twice fails: once an item has changed the page
      file, another item with the same key is an error. */
  lemma MainItemOnce(pf: PageFile, key: string, v1: string, v2: string, parseIP: string -> IP)
    requires MainItem(pf, key, v1, parseIP).Ok? && MainItem(pf, key, v1, parseIP).value != pf
    ensures MainItem(MainItem(pf, key, v1, parseIP).value, key, v2, parseIP).Err?
  {
  }

  /** A time or rev that is not a 64-bit integer, or a host that is not an
      address, is an error while the field is unset. */
  lemma BadMainValue(pf: PageFile, key: string, value: string, parseIP: string -> IP)
    requires || (key == "time" && pf.time == ZeroTime && ParseInt(value).None?)
             || (key == "rev" && pf.rev == 0 && ParseInt(value).None?)
             || (key == "host" && |pf.host| == 0 && parseIP(value) == [])
    ensures MainItem(pf, key, value, parseIP).Err?
  {
  }

  /** Setting a revision field twice fails: once an item has changed the
      revision stored under a time, another non-empty item with the same key
      for the same time is an error. */
  lemma RevItemOnce(pf: PageFile, key: string, v1: string, opts1: seq<string>, v2: string, opts2: seq<string>,
                    parseIP: string -> IP)
    requires opts1 != [] && opts2 != [] && ParseInt(opts2[0]) == ParseInt(opts1[0]) && v2 != ""
    requires RevItem(pf, key, v1, opts1, parseIP).Ok? && RevItem(pf, key, v1, opts1, parseIP).value != pf
    ensures RevItem(RevItem(pf, key, v1, opts1, parseIP).value, key, v2, opts2, parseIP).Err?
  {
  }

  /** A diff item for a revision without a diff succeeds exactly when its
      second key option is an integer, and then stores the diff text and the
      time it is against, and nothing else. */
  lemma DiffItem(pf: PageFile, value: string, opts: seq<string>, parseIP: string -> IP)
    requires opts != [] && value != "" && ParseInt(opts[0]).Some?
    requires var rev := RevAt(pf, ParseInt(opts[0]).value); rev.diff == "" && rev.diffAgainst == ZeroTime
    ensures RevItem(pf, "diff", value, opts, parseIP).Ok? <==> |opts| >= 2 && ParseInt(opts[1]).Some?
    ensures RevItem(pf, "diff", value, opts, parseIP).Ok? ==>
      var unix := ParseInt(opts[0]).value;
      RevItem(pf, "diff", value, opts, parseIP).value.revs
        == pf.revs[unix := RevAt(pf, unix).(diff := value, diffAgainst := ParseInt(opts[1]).value)]
  {
  }

  /** A main item whose field is still unset and whose value is valid sets
      that field to the value (time and rev parsed as integers, host through
      net.ParseIP) and changes nothing else. */
  lemma MainItemSets(pf: PageFile, key: string, value: string, parseIP: string -> IP)
    ensures key == "name" && pf.name == "" ==> MainItem(pf, key, value, parseIP) == Ok(pf.(name := value))
    ensures key == "text" && pf.text == "" ==> MainItem(pf, key, value, parseIP) == Ok(pf.(text := value))
    ensures key == "author" && pf.author == "" ==> MainItem(pf, key, value, parseIP) == Ok(pf.(author := value))
    ensures key == "time" && pf.time == ZeroTime && ParseInt(value).Some? ==>
              MainItem(pf, key, value, parseIP) == Ok(pf.(time := ParseInt(value).value))
    ensures key == "rev" && pf.rev == 0 && ParseInt(value).Some? ==>
              MainItem(pf, key, value, parseIP) == Ok(pf.(rev := ParseInt(value).value))
    ensures key == "host" && |pf.host| == 0 && parseIP(value) != [] ==>
              MainItem(pf, key, value, parseIP) == Ok(pf.(host := parseIP(value)))
  {
  }

  /** A non-empty author or host item under an integer time fills that
      field of the revision stored there, or of a new one, when the field
      is unset; every other revision and field stays as it was. */
  lemma RevItemSets(pf: PageFile, key: string, value: string, opts: seq<string>, parseIP: string -> IP)
    requires opts != [] && value != "" && ParseInt(opts[0]).Some?
    ensures var unix := ParseInt(opts[0]).value; var rev := RevAt(pf, unix);
      key == "author" && rev.author == "" ==>
        RevItem(pf, key, value, opts, parseIP) == Ok(pf.(revs := pf.revs[unix := rev.(author := value)]))
    ensures var unix := ParseInt(opts[0]).value; var rev := RevAt(pf, unix);
      key == "host" && |rev.host| == 0 && parseIP(value) != [] ==>
        RevItem(pf, key, value, opts, parseIP) == Ok(pf.(revs := pf.revs[unix := rev.(host := parseIP(value))]))
  {
  }

  /** A value without "%" is the value itself, urlencoded or not; a "+"
      stays a "+". */
  lemma {:induction false} PlainValue(raw: string, urlencoded: bool)
    requires '%' !in raw
    ensures DecodeValue(raw, urlencoded) == Ok(raw)
  {
    if urlencoded {
      UnescapeKeepsPlus(raw);
    }
  }

  // ---------------------------------------------------------------------
  // Parsing written lines
  // ---------------------------------------------------------------------

  /** What one line does to the page file: its value is decoded and the
      item applied. */
  function ApplyLine(pf: PageFile, l: Line, urlencoded: bool, parseIP: string -> IP): Result<PageFile, string>
  {
    match DecodeValue(l.value, urlencoded)
    case Err(e) => Err("URL decoding value errored, " + e)
    case Ok(v) =>
      match ApplyItem(pf, l.key, v, l.opts, parseIP)
      case Err(e) => Err("parsing item errored, " + e)
      case Ok(pf2) => Ok(pf2)
  }

  /** The page file the lines give: each line is applied in order; the
      first error ends it. */
  function ApplyLines(pf: PageFile, ls: seq<Line>, urlencoded: bool, parseIP: string -> IP): Result<PageFile, string>
    decreases |ls|
  {
    if ls == [] then Ok(pf)
    else
      match ApplyLine(pf, ls[0], urlencoded, parseIP)
      case Err(e) => Err(e)
      case Ok(pf2) => ApplyLines(pf2, ls[1..], urlencoded, parseIP)
  }

  /** Key options are collected in order: when the item after them gives
      r, the item from the first of them gives r. */
  lemma {:induction false} OptsRun(toks: seq<PageFileLexItem>, i: nat, pf: PageFile, urlencoded: bool, parseIP: string -> IP,
                                   key: string, acc: seq<string>, opts: seq<string>, r: Result<PageFile, string>)
    requires Terminated(toks) && i + |opts| < |toks| && toks[i..i + |opts|] == OptItems(opts)
    requires ParseItem(toks, i + |opts|, pf, urlencoded, parseIP, key, acc + opts) == r
    ensures ParseItem(toks, i, pf, urlencoded, parseIP, key, acc) == r
    decreases |opts|
  {
    if opts == [] {
      assert acc + opts == acc;
    } else {
      assert toks[i] == OptItems(opts)[0] == PageFileLexItem(KeyOpt, opts[0]);
      assert toks[i + 1..i + |opts|] == OptItems(opts)[1..] == OptItems(opts[1..]);
      assert acc + [opts[0]] + opts[1..] == acc + opts;
      OptsRun(toks, i + 1, pf, urlencoded, parseIP, key, acc + [opts[0]], opts[1..], r);
      ItemOpt(toks, i, pf, urlencoded, parseIP, key, acc);
    }
  }

  /** Where the tokens of one line sit among toks. */
  lemma LineTokens(toks: seq<PageFileLexItem>, i: nat, l: Line, after: seq<PageFileLexItem>)
    requires i <= |toks| && toks[i..] == ItemsOf(l) + after
    ensures i + 2 + |l.opts| <= |toks|
    ensures toks[i] == PageFileLexItem(Key, l.key)
    ensures toks[i + 1..i + 1 + |l.opts|] == OptItems(l.opts)
    ensures toks[i + 1 + |l.opts|] == PageFileLexItem(Value, l.value)
    ensures toks[i + 2 + |l.opts|..] == after
  {
    var n := |l.opts|;
    var key, val := PageFileLexItem(Key, l.key), PageFileLexItem(Value, l.value);
    assert toks[i..] == [key] + (OptItems(l.opts) + ([val] + after));
    SplitAt(toks, i, [key], OptItems(l.opts) + ([val] + after));
    SplitAt(toks, i + 1, OptItems(l.opts), [val] + after);
    SplitAt(toks, i + 1 + n, [val], after);
  }

  /** The tokens of one line: its key and its key options are read, and
      the item goes on at its value. */
  lemma {:induction false} OneLine(toks: seq<PageFileLexItem>, i: nat, l: Line, pf: PageFile,
                                   urlencoded: bool, parseIP: string -> IP, r: Result<PageFile, string>)
    requires Terminated(toks) && i + 1 + |l.opts| < |toks|
    requires toks[i] == PageFileLexItem(Key, l.key) && toks[i + 1..i + 1 + |l.opts|] == OptItems(l.opts)
    requires ParseItem(toks, i + 1 + |l.opts|, pf, urlencoded, parseIP, l.key, l.opts) == r
    ensures ParseFields(toks, i, pf, urlencoded, parseIP) == r
  {
    assert [] + l.opts == l.opts;
    assert toks[i + 1..i + 1 + |l.opts|] == OptItems(l.opts);
    assert ParseItem(toks, i + 1 + |l.opts|, pf, urlencoded, parseIP, l.key, [] + l.opts) == r;
    OptsRun(toks, i + 1, pf, urlencoded, parseIP, l.key, [], l.opts, r);
    KeyStartsItem(toks, i, pf, urlencoded, parseIP, r);
  }

  /** A Key token starts an item: when the item from the next token gives
      r, the fields from the key give r. */
  lemma KeyStartsItem(toks: seq<PageFileLexItem>, i: nat, pf: PageFile, urlencoded: bool, parseIP: string -> IP,
                      r: Result<PageFile, string>)
    requires Terminated(toks) && i + 1 < |toks| && toks[i].t == Key
    requires ParseItem(toks, i + 1, pf, urlencoded, parseIP, toks[i].v, []) == r
    ensures ParseFields(toks, i, pf, urlencoded, parseIP) == r
  {
    assert NextTypeAt(toks, i, Key, 0, 0) == (Got(toks[i].v), i + 1);
  }

  /** The tokens of one line, read from token i on, make the item that
      line is: the fields from i give what that item gives. */
  lemma LineStep(toks: seq<PageFileLexItem>, i: nat, l: Line, pf: PageFile, urlencoded: bool, parseIP: string -> IP,
                 r: Result<PageFile, string>)
    requires Terminated(toks) && i + 2 + |l.opts| < |toks|
    requires toks[i] == PageFileLexItem(Key, l.key) && toks[i + 1..i + 1 + |l.opts|] == OptItems(l.opts)
    requires toks[i + 1 + |l.opts|] == PageFileLexItem(Value, l.value)
    requires FinishItem(toks, i + 2 + |l.opts|, pf, urlencoded, parseIP, l) == r
    ensures ParseFields(toks, i, pf, urlencoded, parseIP) == r
  {
    ItemEnd(toks, i + 1 + |l.opts|, pf, urlencoded, parseIP, l.key, l.opts);
    OneLine(toks, i, l, pf, urlencoded, parseIP, r);
  }

  /** An item whose line applies, followed by fields that do what the
      rest of the lines do, does what all the lines do. */
  lemma ItemThenRest(toks: seq<PageFileLexItem>, j: nat, ls: seq<Line>, pf: PageFile, pf2: PageFile,
                     urlencoded: bool, parseIP: string -> IP)
    requires ls != [] && Terminated(toks) && j < |toks|
    requires ApplyLine(pf, ls[0], urlencoded, parseIP) == Ok(pf2)
    requires ParseFields(toks, j, pf2, urlencoded, parseIP) == ApplyLines(pf2, ls[1..], urlencoded, parseIP)
    ensures FinishItem(toks, j, pf, urlencoded, parseIP, ls[0]) == ApplyLines(pf, ls, urlencoded, parseIP)
  {
  }

  /** An item whose line fails fails as the lines do. */
  lemma ItemFails(toks: seq<PageFileLexItem>, j: nat, ls: seq<Line>, pf: PageFile, urlencoded: bool, parseIP: string -> IP)
    requires ls != [] && Terminated(toks) && j < |toks|
    requires ApplyLine(pf, ls[0], urlencoded, parseIP).Err?
    ensures FinishItem(toks, j, pf, urlencoded, parseIP, ls[0]) == ApplyLines(pf, ls, urlencoded, parseIP)
  {
  }

  /** The tokens of lines, then EOF, parse to what the lines give. */
  lemma {:induction false} FieldsOfLines(toks: seq<PageFileLexItem>, i: nat, ls: seq<Line>, pf: PageFile, urlencoded: bool,
                                         parseIP: string -> IP)
    requires Terminated(toks) && i < |toks| && toks[i..] == LineItems(ls) + [PageFileLexItem(EOF, "")]
    ensures ParseFields(toks, i, pf, urlencoded, parseIP) == ApplyLines(pf, ls, urlencoded, parseIP)
    decreases |ls|
  {
    if ls == [] {
      assert toks[i] == toks[i..][0];
    } else {
      var l := ls[0];
      var j := i + 2 + |l.opts|;
      var after := LineItems(ls[1..]) + [PageFileLexItem(EOF, "")];
      AppendAssoc(ItemsOf(l), LineItems(ls[1..]), [PageFileLexItem(EOF, "")]);
      LineTokens(toks, i, l, after);
      var a := ApplyLine(pf, l, urlencoded, parseIP);
      if a.Ok? {
        FieldsOfLines(toks, j, ls[1..], a.value, urlencoded, parseIP);
        ItemThenRest(toks, j, ls, pf, a.value, urlencoded, parseIP);
      } else {
        ItemFails(toks, j, ls, pf, urlencoded, parseIP);
      }
      LineStep(toks, i, l, pf, urlencoded, parseIP, ApplyLines(pf, ls, urlencoded, parseIP));
    }
  }

  /** A page file written as a version line and then well-formed lines
      parses to what its lines give, starting from the empty page file with
      that version; the urlencoded flag is whether the version contains
      "urlencoded=1". */
  lemma {:induction false} ParseRendered(version: string, ls: seq<Line>, parseIP: string -> IP)
    requires '\n' !in version && forall k :: 0 <= k < |ls| ==> WellFormed(ls[k])
    ensures ParseText(Render([Line("version", [], version)] + ls), parseIP)
            == ApplyLines(EmptyPageFile.(version := version), ls, Contains(version, "urlencoded=1"), parseIP)
  {
    var first := Line("version", [], version);
    var all := [first] + ls;
    assert IsField("version");
    forall k | 0 <= k < |all| ensures WellFormed(all[k]) {
      if k > 0 { assert all[k] == ls[k - 1]; }
    }
    LexRender(all);
    var toks := Tokens(Render(all));
    TokensTerminated(Render(all));
    assert all[1..] == ls;
    var eof := [PageFileLexItem(EOF, "")];
    assert LineItems(all) == ItemsOf(first) + LineItems(ls);
    assert ItemsOf(first) == [VersionKey, PageFileLexItem(Value, version)];
    assert toks == [VersionKey, PageFileLexItem(Value, version)] + (LineItems(ls) + eof);
    assert toks[2..] == LineItems(ls) + eof;
    var r := ApplyLines(EmptyPageFile.(version := version), ls, Contains(version, "urlencoded=1"), parseIP);
    FieldsOfLines(toks, 2, ls, EmptyPageFile.(version := version), Contains(version, "urlencoded=1"), parseIP);
    VersionThenFields(toks, version, parseIP, r);
  }

  /** A version item without key options, then fields that give r, give r. */
  lemma VersionThenFields(toks: seq<PageFileLexItem>, version: string, parseIP: string -> IP, r: Result<PageFile, string>)
    requires Terminated(toks) && 2 < |toks| && toks[0] == VersionKey && toks[1] == PageFileLexItem(Value, version)
    requires ParseFields(toks, 2, EmptyPageFile.(version := version), Contains(version, "urlencoded=1"), parseIP) == r
    ensures ParseTokens(toks, parseIP) == r
  {
    assert AcceptAt(toks, 0, [VersionKey]) == (None, 1);
    assert NextTypeAt(toks, 1, Value, 1, 0) == (Got(version), 2);
  }

  /** When each line takes the page file from one state to the next, the
      lines take it from the first state to the last. */
  lemma {:induction false} ApplyLinesChain(ps: seq<PageFile>, ls: seq<Line>, urlencoded: bool, parseIP: string -> IP)
    requires |ps| == |ls| + 1
    requires forall k :: 0 <= k < |ls| ==> ApplyLine(ps[k], ls[k], urlencoded, parseIP) == Ok(ps[k + 1])
    ensures ApplyLines(ps[0], ls, urlencoded, parseIP) == Ok(ps[|ls|])
    decreases |ls|
  {
    if ls != [] {
      assert ApplyLine(ps[0], ls[0], urlencoded, parseIP) == Ok(ps[1]);
      forall k | 0 <= k < |ls[1..]| ensures ApplyLine(ps[1..][k], ls[1..][k], urlencoded, parseIP) == Ok(ps[1..][k + 1]) {
        assert ApplyLine(ps[k + 1], ls[k + 1], urlencoded, parseIP) == Ok(ps[k + 2]);
      }
      ApplyLinesChain(ps[1..], ls[1..], urlencoded, parseIP);
    }
  }

  /** The text of an integer ParseInt accepts holds no "%", no newline
      and no character that ends a field. */
  lemma IntText(s: string)
    requires ParseInt(s).Some?
    ensures '%' !in s && '\n' !in s && IsField(s)
  {
    forall k | 0 <= k < |s| ensures IsDigit(s[k]) || s[k] == '+' || s[k] == '-' {
      if k > 0 { assert s[k] == s[1..][k - 1]; }
    }
  }

  /** The keys PmWiki writes are field names: none holds a ":", a "="
      or a space. */
  lemma KeyFields()
    ensures IsField("name") && IsField("time") && IsField("author") && IsField("host")
    ensures IsField("rev") && IsField("text") && IsField("diff")
  {
  }

  /** A line without key options whose value holds no "%" does what its
      item does to the page file. */
  lemma PlainLine(pf: PageFile, key: string, value: string, urlencoded: bool, parseIP: string -> IP, pf2: PageFile)
    requires '%' !in value && MainItem(pf, key, value, parseIP) == Ok(pf2)
    ensures ApplyLine(pf, Line(key, [], value), urlencoded, parseIP) == Ok(pf2)
  {
    PlainValue(value, urlencoded);
  }

  /** A page of the six main fields, one line each after the version,
      parses to a page file with exactly those fields and no revisions,
      urlencoded or not: time and rev as the integers they spell, host as
      the address net.ParseIP gives. */
  lemma MainFieldsPage(version: string, name: string, time: string, author: string, host: string, rev: string,
                       text: string, parseIP: string -> IP)
    requires '\n' !in version
    requires '%' !in name && '\n' !in name && '%' !in author && '\n' !in author
    requires '%' !in host && '\n' !in host && '%' !in text && '\n' !in text
    requires ParseInt(time).Some? && ParseInt(rev).Some? && parseIP(host) != []
    ensures ParseText(Render([Line("version", [], version), Line("name", [], name), Line("time", [], time),
                              Line("author", [], author), Line("host", [], host), Line("rev", [], rev),
                              Line("text", [], text)]), parseIP)
            == Ok(PageFile(version, name, ParseInt(time).value, text, author, parseIP(host), ParseInt(rev).value,
                           map[], ZeroTime))
  {
    var ls := [Line("name", [], name), Line("time", [], time), Line("author", [], author), Line("host", [], host),
               Line("rev", [], rev), Line("text", [], text)];
    assert [Line("version", [], version)] + ls
        == [Line("version", [], version), Line("name", [], name), Line("time", [], time),
            Line("author", [], author), Line("host", [], host), Line("rev", [], rev), Line("text", [], text)];
    IntText(time);
    IntText(rev);
    KeyFields();
    forall k | 0 <= k < |ls| ensures WellFormed(ls[k]) {
    }
    ParseRendered(version, ls, parseIP);
    MainFieldsApply(version, name, time, author, host, rev, text, Contains(version, "urlencoded=1"), parseIP);
  }

  /** The six main field lines take the empty page file to the one holding
      those six fields. */
  lemma MainFieldsApply(version: string, name: string, time: string, author: string, host: string, rev: string,
                        text: string, u: bool, parseIP: string -> IP)
    requires '%' !in name && '%' !in author && '%' !in host && '%' !in text
    requires ParseInt(time).Some? && ParseInt(rev).Some? && parseIP(host) != []
    ensures ApplyLines(EmptyPageFile.(version := version),
                       [Line("name", [], name), Line("time", [], time), Line("author", [], author),
                        Line("host", [], host), Line("rev", [], rev), Line("text", [], text)], u, parseIP)
            == Ok(PageFile(version, name, ParseInt(time).value, text, author, parseIP(host), ParseInt(rev).value,
                           map[], ZeroTime))
  {
    var first := [Line("name", [], name), Line("time", [], time), Line("author", [], author)];
    var second := [Line("host", [], host), Line("rev", [], rev), Line("text", [], text)];
    var p0 := EmptyPageFile.(version := version);
    var p3 := p0.(name := name, time := ParseInt(time).value, author := author);
    NameTimeAuthorLines(p0, name, time, author, u, parseIP);
    HostRevTextLines(p3, host, rev, text, u, parseIP);
    ApplyLinesAppend(p0, first, second, u, parseIP);
    assert first + second
        == [Line("name", [], name), Line("time", [], time), Line("author", [], author),
            Line("host", [], host), Line("rev", [], rev), Line("text", [], text)];
  }

  /** Name, time and author lines fill those three fields when unset. */
  lemma NameTimeAuthorLines(pf: PageFile, name: string, time: string, author: string, u: bool, parseIP: string -> IP)
    requires pf.name == "" && pf.time == ZeroTime && pf.author == ""
    requires '%' !in name && '%' !in author && ParseInt(time).Some?
    ensures ApplyLines(pf, [Line("name", [], name), Line("time", [], time), Line("author", [], author)], u, parseIP)
            == Ok(pf.(name := name, time := ParseInt(time).value, author := author))
  {
    IntText(time);
    var p1 := pf.(name := name);
    var p2 := p1.(time := ParseInt(time).value);
    var p3 := p2.(author := author);
    MainItemSets(pf, "name", name, parseIP);
    PlainLine(pf, "name", name, u, parseIP, p1);
    MainItemSets(p1, "time", time, parseIP);
    PlainLine(p1, "time", time, u, parseIP, p2);
    MainItemSets(p2, "author", author, parseIP);
    PlainLine(p2, "author", author, u, parseIP, p3);
    ApplyLinesChain([pf, p1, p2, p3], [Line("name", [], name), Line("time", [], time), Line("author", [], author)],
                    u, parseIP);
  }

  /** Host, rev and text lines fill those three fields when unset. */
  lemma HostRevTextLines(pf: PageFile, host: string, rev: string, text: string, u: bool, parseIP: string -> IP)
    requires |pf.host| == 0 && pf.rev == 0 && pf.text == ""
    requires '%' !in host && '%' !in text && ParseInt(rev).Some? && parseIP(host) != []
    ensures ApplyLines(pf, [Line("host", [], host), Line("rev", [], rev), Line("text", [], text)], u, parseIP)
            == Ok(pf.(host := parseIP(host), rev := ParseInt(rev).value, text := text))
  {
    IntText(rev);
    var p1 := pf.(host := parseIP(host));
    var p2 := p1.(rev := ParseInt(rev).value);
    var p3 := p2.(text := text);
    MainItemSets(pf, "host", host, parseIP);
    PlainLine(pf, "host", host, u, parseIP, p1);
    MainItemSets(p1, "rev", rev, parseIP);
    PlainLine(p1, "rev", rev, u, parseIP, p2);
    MainItemSets(p2, "text", text, parseIP);
    PlainLine(p2, "text", text, u, parseIP, p3);
    ApplyLinesChain([pf, p1, p2, p3], [Line("host", [], host), Line("rev", [], rev), Line("text", [], text)],
                    u, parseIP);
  }

  /** Lines one after the other: the second run starts from where the
      first ended, unless the first failed. */
  lemma {:induction false} ApplyLinesAppend(pf: PageFile, ls1: seq<Line>, ls2: seq<Line>, u: bool, parseIP: string -> IP)
    ensures ApplyLines(pf, ls1 + ls2, u, parseIP)
            == match ApplyLines(pf, ls1, u, parseIP)
               case Ok(pf2) => ApplyLines(pf2, ls2, u, parseIP)
               case Err(e) => Err(e)
    decreases |ls1|
  {
    if ls1 == [] {
      assert ls1 + ls2 == ls2;
    } else {
      assert (ls1 + ls2)[0] == ls1[0] && (ls1 + ls2)[1..] == ls1[1..] + ls2;
      match ApplyLine(pf, ls1[0], u, parseIP)
      case Err(e) =>
      case Ok(pf2) => ApplyLinesAppend(pf2, ls1[1..], ls2, u, parseIP);
    }
  }

  /** The page "name=A, time=100, author=u, host=::1, rev=3, text=hi"
      parses to exactly those six fields. */
  lemma MainFieldsExample(version: string, parseIP: string -> IP)
    requires '\n' !in version && parseIP("::1") == Loopback
    ensures ParseText(Render([Line("version", [], version), Line("name", [], "A"), Line("time", [], "100"),
                              Line("author", [], "u"), Line("host", [], "::1"), Line("rev", [], "3"),
                              Line("text", [], "hi")]), parseIP)
            == Ok(PageFile(version, "A", 100, "hi", "u", Loopback, 3, map[], ZeroTime))
  {
    assert ParseInt("100") == Some(100) by {
      ParseIntForms("100");
      assert DigitsValue("100") == 100 by { assert "100"[..2] == "10" && "10"[..1] == "1"; }
    }
    assert ParseInt("3") == Some(3) by {
      ParseIntForms("3");
      assert DigitsValue("3") == 3 by { assert "3"[..0] == ""; }
    }
    MainFieldsPage(version, "A", "100", "u", "::1", "3", "hi", parseIP);
  }

  /** In a urlencoded page, a text line, a host line for a time and a diff
      line for that time against another give a page file with that text
      and a single revision, under that time, holding the host, the decoded
      diff and the time it is against. */
  lemma RevisionIndexPage(version: string, text: string, unix: string, host: string, against: string,
                          diff: string, decoded: string, parseIP: string -> IP)
    requires '\n' !in version && Contains(version, "urlencoded=1")
    requires '%' !in text && '\n' !in text && '%' !in host && '\n' !in host && host != "" && parseIP(host) != []
    requires ParseInt(unix).Some? && ParseInt(against).Some?
    requires '\n' !in diff && DecodeValue(diff, true) == Ok(decoded) && decoded != ""
    ensures ParseText(Render([Line("version", [], version), Line("text", [], text), Line("host", [unix], host),
                              Line("diff", [unix, against, ""], diff)]), parseIP)
            == Ok(EmptyPageFile.(version := version, text := text,
                                 revs := map[ParseInt(unix).value := EmptyRevision.(host := parseIP(host), diff := decoded,
                                                                                    diffAgainst := ParseInt(against).value)]))
  {
    var ls := [Line("text", [], text), Line("host", [unix], host), Line("diff", [unix, against, ""], diff)];
    assert [Line("version", [], version)] + ls
        == [Line("version", [], version), Line("text", [], text), Line("host", [unix], host),
            Line("diff", [unix, against, ""], diff)];
    IntText(unix);
    IntText(against);
    KeyFields();
    forall k | 0 <= k < |ls| ensures WellFormed(ls[k]) {
    }
    ParseRendered(version, ls, parseIP);
    RevisionLinesApply(version, text, unix, host, against, diff, decoded, parseIP);
  }

  /** The text, host and diff lines take the empty page file to the one
      with that text and the single revision they describe. */
  lemma RevisionLinesApply(version: string, text: string, unix: string, host: string, against: string,
                           diff: string, decoded: string, parseIP: string -> IP)
    requires '%' !in text && '%' !in host && host != "" && parseIP(host) != []
    requires ParseInt(unix).Some? && ParseInt(against).Some?
    requires DecodeValue(diff, true) == Ok(decoded) && decoded != ""
    ensures ApplyLines(EmptyPageFile.(version := version),
                       [Line("text", [], text), Line("host", [unix], host), Line("diff", [unix, against, ""], diff)],
                       true, parseIP)
            == Ok(EmptyPageFile.(version := version, text := text,
                                 revs := map[ParseInt(unix).value := EmptyRevision.(host := parseIP(host), diff := decoded,
                                                                                    diffAgainst := ParseInt(against).value)]))
  {
    var t := ParseInt(unix).value;
    var p0 := EmptyPageFile.(version := version);
    var p1 := p0.(text := text);
    var r1 := EmptyRevision.(host := parseIP(host));
    var p2 := p1.(revs := map[t := r1]);
    var p3 := p1.(revs := map[t := r1.(diff := decoded, diffAgainst := ParseInt(against).value)]);
    MainItemSets(p0, "text", text, parseIP);
    PlainLine(p0, "text", text, true, parseIP, p1);
    HostLine(p1, unix, host, parseIP);
    assert p1.revs[t := r1] == map[t := r1];
    DiffLine(p2, unix, against, diff, decoded, parseIP);
    assert RevAt(p2, t) == r1;
    assert p2.revs[t := r1.(diff := decoded, diffAgainst := ParseInt(against).value)] == p3.revs;
    ApplyLinesChain([p0, p1, p2, p3],
                    [Line("text", [], text), Line("host", [unix], host), Line("diff", [unix, against, ""], diff)],
                    true, parseIP);
  }

  /** A host line under an integer time sets the host of the revision
      there when it is unset. */
  lemma HostLine(pf: PageFile, unix: string, host: string, parseIP: string -> IP)
    requires '%' !in host && host != "" && parseIP(host) != [] && ParseInt(unix).Some?
    requires |RevAt(pf, ParseInt(unix).value).host| == 0
    ensures var t := ParseInt(unix).value;
      ApplyLine(pf, Line("host", [unix], host), true, parseIP)
      == Ok(pf.(revs := pf.revs[t := RevAt(pf, t).(host := parseIP(host))]))
  {
    PlainValue(host, true);
    RevItemSets(pf, "host", host, [unix], parseIP);
  }

  /** A diff line under an integer time, against another, sets the diff
      and the time it is against of the revision there when both are
      unset. */
  lemma DiffLine(pf: PageFile, unix: string, against: string, diff: string, decoded: string, parseIP: string -> IP)
    requires ParseInt(unix).Some? && ParseInt(against).Some?
    requires DecodeValue(diff, true) == Ok(decoded) && decoded != ""
    requires RevAt(pf, ParseInt(unix).value).diff == "" && RevAt(pf, ParseInt(unix).value).diffAgainst == ZeroTime
    ensures var t := ParseInt(unix).value;
      ApplyLine(pf, Line("diff", [unix, against, ""], diff), true, parseIP)
      == Ok(pf.(revs := pf.revs[t := RevAt(pf, t).(diff := decoded, diffAgainst := ParseInt(against).value)]))
  {
    DiffItem(pf, decoded, [unix, against, ""], parseIP);
  }

  /** The page "text=t, host:42=::1, diff:42:23:=0a1%0a> add%0a", when
      urlencoded, has a single revision, at 42, against 23, holding the
      diff "0a1\n> add\n". */
  lemma RevisionIndexExample(version: string, parseIP: string -> IP)
    requires '\n' !in version && Contains(version, "urlencoded=1") && parseIP("::1") == Loopback
    ensures ParseText(Render([Line("version", [], version), Line("text", [], "t"), Line("host", ["42"], "::1"),
                              Line("diff", ["42", "23", ""], "0a1%0a> add%0a")]), parseIP)
            == Ok(EmptyPageFile.(version := version, text := "t",
                                 revs := map[42 := EmptyRevision.(host := Loopback, diff := "0a1\n> add\n", diffAgainst := 23)]))
  {
    RevisionExampleValues();
    DecodeDiffExample();
    RevisionIndexPage(version, "t", "42", "::1", "23", "0a1%0a> add%0a", "0a1\n> add\n", parseIP);
  }

  /** The values of that page: two times and the plain text and host. */
  lemma RevisionExampleValues()
    ensures ParseInt("42") == Some(42) && ParseInt("23") == Some(23)
    ensures '%' !in "t" && '\n' !in "t" && '%' !in "::1" && '\n' !in "::1" && '\n' !in "0a1%0a> add%0a"
  {
    ParseFortyTwo();
    ParseTwentyThree();
  }

  lemma ParseFortyTwo()
    ensures ParseInt("42") == Some(42)
  {
    ParseIntForms("42");
    assert DigitsValue("42") == 42 by { assert "42"[..1] == "4"; }
  }

  lemma ParseTwentyThree()
    ensures ParseInt("23") == Some(23)
  {
    ParseIntForms("23");
    assert DigitsValue("23") == 23 by { assert "23"[..1] == "2"; }
  }

  /** The diff value "0a1%0a> add%0a" of a urlencoded page decodes to the
      diff "0a1\n> add\n". */
  lemma DecodeDiffExample()
    ensures DecodeValue("0a1%0a> add%0a", true) == Ok("0a1\n> add\n")
  {
    UnescapeDiffExample();
    DecodeWithoutPlus("0a1%0a> add%0a", "0a1\n> add\n");
  }

  /** A urlencoded value without "+" decodes as url.QueryUnescape alone
      decodes it. */
  lemma DecodeWithoutPlus(raw: string, v: string)
    requires '+' !in raw && QueryUnescape(raw) == Ok(v)
    ensures DecodeValue(raw, true) == Ok(v)
  {
    EscapePlusNoPlus(raw);
  }

  lemma UnescapeDiffExample()
    ensures QueryUnescape("0a1%0a> add%0a") == Ok("0a1\n> add\n")
  {
    var nl, head, line := "%0a", "0a1", "> add";
    assert QueryUnescape([]) == Ok([]);
    UnescapeNewlineThen([], []);
    UnescapePlainThen(line, nl + [], "\n" + []);
    UnescapeNewlineThen(line + (nl + []), line + ("\n" + []));
    UnescapePlainThen(head, nl + (line + (nl + [])), "\n" + (line + ("\n" + [])));
    assert head + (nl + (line + (nl + []))) == "0a1%0a> add%0a";
    assert head + ("\n" + (line + ("\n" + []))) == "0a1\n> add\n";
  }

  /** An escaped newline decodes to a newline in front of the rest. */
  lemma UnescapeNewlineThen(rest: string, v: string)
    requires QueryUnescape(rest) == Ok(v)
    ensures QueryUnescape("%0a" + rest) == Ok("\n" + v)
  {
    assert "%0a" + rest == ['%', '0', 'a'] + rest;
    UnescapeHexPair('0', 'a', rest);
    assert (16 * HexValue('0') + HexValue('a')) as char == '\n';
  }

  /** A run without "%" and "+" decodes to itself in front of the rest. */
  lemma UnescapePlainThen(p: string, rest: string, v: string)
    requires '%' !in p && '+' !in p && QueryUnescape(rest) == Ok(v)
    ensures QueryUnescape(p + rest) == Ok(p + v)
  {
    UnescapePlainRun(p, rest);
  }


  // ---------------------------------------------------------------------
  // The parser
  // ---------------------------------------------------------------------

  /** The state functions of the parser; Finished is the nil state. */
  datatype PageFileParseState = AtVersion | AtFields | Finished

  function StateRank(state: PageFileParseState): nat
  {
    match state
    case AtVersion => 2
    case AtFields => 1
    case Finished => 0
  }

  /** pageFileParser, reading the tokens the lexer sends over its channel. */
  class PageFileParser {
    var pf: PageFile
    var err: Option<string>
    var urlencoded: bool
    /** The tokens of the channel, and how many of them were received. */
    const toks: seq<PageFileLexItem>
    var idx: nat
    /** net.ParseIP. */
    const parseIP: string -> IP

    ghost predicate Valid()
      reads this
    {
      Terminated(toks) && idx <= |toks|
    }

    /** The outcome the parser reports: its error, or else its page file. */
    function Outcome(): Result<PageFile, string>
      reads this
    {
      if err.Some? then Err(err.value) else Ok(pf)
    }

    constructor (toks: seq<PageFileLexItem>, parseIP: string -> IP)
      requires Terminated(toks)
      ensures Valid() && this.toks == toks && this.parseIP == parseIP && idx == 0
      ensures pf == EmptyPageFile && err == None && !urlencoded
    {
      this.toks := toks;
      this.parseIP := parseIP;
      pf, err, urlencoded, idx := EmptyPageFile, None, false, 0;
    }

    /** The next token from the channel. */
    method Next() returns (item: PageFileLexItem)
      requires Valid() && idx < |toks|
      modifies this`idx
      ensures Valid() && idx == old(idx) + 1 && item == toks[old(idx)]
    {
      item := toks[idx];
      idx := idx + 1;
    }

    /** nextType: reads tokens until one of type want, an EOF or an Error,
        reading at most max of them when max is positive. */
    method NextType(want: PageFileLexType, max: int) returns (r: Received)
      requires Valid() && idx < |toks| && !IsFinal(PageFileLexItem(want, ""))
      modifies this`idx
      ensures Valid() && (r, idx) == old(NextTypeAt(toks, idx, want, max, 0))
    {
      ghost var goal := NextTypeAt(toks, idx, want, max, 0);
      var i: nat := 0;
      var done := false;
      r := AtEOF;
      while !done && (max <= 0 || i < max)
        invariant Valid()
        invariant !done ==> idx < |toks| && NextTypeAt(toks, idx, want, max, i) == goal
        invariant done ==> (r, idx) == goal
        decreases |toks| - idx
      {
        var item := Next();
        if item.t == want {
          r, done := Got(item.v), true;
        } else if item.t == EOF {
          r, done := AtEOF, true;
        } else if item.t == Error {
          r, done := Failed(item.v), true;
        } else {
          i := i + 1;
        }
      }
      if !done {
        r := Failed(NotFoundError(want, max));
      }
    }

    /** acceptItem: every token read must equal the expected one in its
        place. */
    method AcceptItem(expected: seq<PageFileLexItem>) returns (e: Option<string>)
      requires Valid() && idx < |toks|
      requires forall k :: 0 <= k < |expected| ==> !IsFinal(expected[k])
      modifies this`idx
      ensures Valid() && (e, idx) == old(AcceptAt(toks, idx, expected))
    {
      ghost var goal := AcceptAt(toks, idx, expected);
      e := None;
      var n := 0;
      while n < |expected| && e.None?
        invariant Valid() && n <= |expected|
        invariant e.None? ==> idx < |toks| && AcceptAt(toks, idx, expected[n..]) == goal
        invariant e.Some? ==> (e, idx) == goal
        decreases |expected| - n, if e.None? then 1 else 0
      {
        var recv := Next();
        AcceptStep(toks, idx - 1, expected[n..]);
        if recv.t != expected[n].t {
          e := Some(TypeError(expected[n].t, recv.t));
        } else if recv.v != expected[n].v {
          e := Some(ValueError(expected[n].v, recv.v));
        } else {
          assert expected[n..][1..] == expected[n + 1..];
          n := n + 1;
        }
      }
    }

    /** errorf: the page file is reset and the error kept. */
    method Errorf(msg: string)
      modifies this`pf, this`err
      ensures pf == EmptyPageFile && err == Some(msg)
    {
      pf := EmptyPageFile;
      err := Some(msg);
    }

    /** pageFileParseVersion: the Key "version" and its Value. */
    method ParseVersion() returns (next: PageFileParseState)
      requires Valid() && idx == 0 && pf == EmptyPageFile && err == None
      modifies this`idx, this`pf, this`err, this`urlencoded
      ensures Valid()
      ensures next == Finished ==> err.Some? && pf == EmptyPageFile && Outcome() == ParseTokens(toks, parseIP)
      ensures next == AtFields ==> err.None? && idx < |toks|
      ensures next == AtFields ==> ParseFields(toks, idx, pf, urlencoded, parseIP) == ParseTokens(toks, parseIP)
      ensures next != AtVersion
    {
      var e := AcceptItem([VersionKey]);
      if e.Some? {
        Errorf(VersionError(e.value));
        return Finished;
      }
      var r := NextType(Value, 1);
      if !r.Got? {
        Errorf(VersionError(ReceivedError(r)));
        return Finished;
      }
      urlencoded := Contains(r.v, "urlencoded=1");
      pf := pf.(version := r.v);
      next := AtFields;
    }

    /** pageFileParseMainItem on the parser's page file. */
    method ParseMainItem(key: string, value: string) returns (e: Option<string>)
      modifies this`pf
      ensures e.Some? ==> pf == old(pf)
      ensures (if e.Some? then Err(e.value) else Ok(pf)) == MainItem(old(pf), key, value, parseIP)
    {
      e := None;
      if key == "name" {
        if pf.name != "" {
          return Some("name field was already set");
        }
        pf := pf.(name := value);
      } else if key == "time" {
        if pf.time != ZeroTime {
          return Some("time field was already set");
        }
        var unix := ParseInt(value);
        if unix.None? {
          return Some("time parsing errored, " + ParseIntError(value));
        }
        pf := pf.(time := unix.value);
      } else if key == "text" {
        if pf.text != "" {
          return Some("text field was already set");
        }
        pf := pf.(text := value);
      } else if key == "author" {
        if pf.author != "" {
          return Some("author field was already set");
        }
        pf := pf.(author := value);
      } else if key == "host" {
        if |pf.host| != 0 {
          return Some("host field was already set");
        }
        var host := parseIP(value);
        if host == [] {
          return Some("parsing host " + value + " errored");
        }
        pf := pf.(host := host);
      } else if key == "rev" {
        if pf.rev != 0 {
          return Some("rev field was already set");
        }
        var rev := ParseInt(value);
        if rev.None? {
          return Some("rev parsing errored, " + ParseIntError(value));
        }
        pf := pf.(rev := rev.value);
      }
    }

    /** pageFileParseRev on the parser's page file: the revision is copied
        out of the map, filled, and written back. */
    method ParseRev(key: string, value: string, opts: seq<string>) returns (e: Option<string>)
      requires opts != []
      modifies this`pf
      ensures e.Some? ==> pf == old(pf)
      ensures (if e.Some? then Err(e.value) else Ok(pf)) == RevItem(old(pf), key, value, opts, parseIP)
    {
      e := None;
      if value == "" {
        return;
      }
      var unixInt := ParseInt(opts[0]);
      if unixInt.None? {
        return;
      }
      var unix := unixInt.value;
      var pfr := if unix in pf.revs then pf.revs[unix] else EmptyRevision;
      if key == "author" {
        if pfr.author != "" {
          return Some("author field was already set");
        }
        pfr := pfr.(author := value);
      } else if key == "host" {
        if |pfr.host| != 0 {
          return Some("host field was already set");
        }
        var host := parseIP(value);
        if host == [] {
          return Some("parsing host " + value + " errored");
        }
        pfr := pfr.(host := host);
      } else if key == "diff" {
        if pfr.diffAgainst != ZeroTime || pfr.diff != "" {
          return Some("diff field was already set");
        }
        if |opts| < 2 {
          return Some("diff requires at least two keyopts");
        }
        var against := ParseInt(opts[1]);
        if against.None? {
          return Some("time parsing errored, " + ParseIntError(opts[1]));
        }
        pfr := pfr.(diffAgainst := against.value);
        pfr := pfr.(diff := value);
      } else {
        return;
      }
      pf := pf.(revs := pf.revs[unix := pfr]);
    }

    /** The item loop of pageFileParseFields: the key options after a key,
        up to the token that ends the item. */
    method ReadItem(key: string) returns (opts: seq<string>, item: PageFileLexItem)
      requires Valid() && idx < |toks|
      modifies this`idx
      ensures Valid() && old(idx) < idx && item == toks[idx - 1] && item.t != KeyOpt
      ensures old(ParseItem(toks, idx, pf, urlencoded, parseIP, key, []))
              == ParseItem(toks, idx - 1, pf, urlencoded, parseIP, key, opts)
    {
      ghost var goal := ParseItem(toks, idx, pf, urlencoded, parseIP, key, []);
      opts := [];
      item := Next();
      while item.t == KeyOpt
        invariant Valid() && old(idx) < idx && item == toks[idx - 1]
        invariant ParseItem(toks, idx - 1, pf, urlencoded, parseIP, key, opts) == goal
        decreases |toks| - idx
      {
        ItemOpt(toks, idx - 1, pf, urlencoded, parseIP, key, opts);
        opts := opts + [item.v];
        item := Next();
      }
    }

    /** The value of an item: decoded in a urlencoded page file. */
    method DecodeItem(raw: string) returns (value: string, e: Option<string>)
      ensures e.None? ==> DecodeValue(raw, urlencoded) == Ok(value)
      ensures e.Some? ==>
                DecodeValue(raw, urlencoded).Err?
                && e.value == "URL decoding value errored, " + DecodeValue(raw, urlencoded).error
    {
      value, e := raw, None;
      if urlencoded {
        var decoded := QueryUnescape(EscapePlus(raw));
        if decoded.Err? {
          e := Some("URL decoding value errored, " + decoded.error);
        } else {
          value := decoded.value;
        }
      }
    }

    /** One item with its value: decoded and applied to the page file. */
    method ApplyValue(l: Line) returns (e: Option<string>)
      modifies this`pf
      ensures e.None? ==> ApplyLine(old(pf), l, urlencoded, parseIP) == Ok(pf)
      ensures e.Some? ==> ApplyLine(old(pf), l, urlencoded, parseIP) == Err(e.value)
    {
      var value, de := DecodeItem(l.value);
      if de.Some? {
        return de;
      }
      var e2;
      if |l.opts| == 0 {
        e2 := ParseMainItem(l.key, value);
      } else {
        e2 := ParseRev(l.key, value, l.opts);
      }
      e := None;
      if e2.Some? {
        e := Some("parsing item errored, " + e2.value);
      }
    }

    /** One pass of the loop of pageFileParseFields: a key, then its item. */
    method FieldsStep() returns (done: bool)
      requires Valid() && idx < |toks| && err.None?
      modifies this`idx, this`pf, this`err
      ensures Valid()
      ensures !done ==> old(idx) < idx < |toks| && err.None?
                        && ParseFields(toks, idx, pf, urlencoded, parseIP) == old(ParseFields(toks, idx, pf, urlencoded, parseIP))
      ensures done ==> Outcome() == old(ParseFields(toks, idx, pf, urlencoded, parseIP)) && (err.Some? ==> pf == EmptyPageFile)
    {
      var r := NextType(Key, 0);
      if r.AtEOF? {
        return true;
      } else if r.Failed? {
        Errorf("parsing key errored, " + r.msg);
        return true;
      }
      done := ItemStep(r.v);
    }

    /** The item after a key: its key options and value are read, and the
        item is applied; done when an error stops the fields. */
    method ItemStep(key: string) returns (done: bool)
      requires Valid() && idx < |toks| && err.None?
      modifies this`idx, this`pf, this`err
      ensures Valid()
      ensures !done ==> old(idx) < idx < |toks| && err.None?
                        && ParseFields(toks, idx, pf, urlencoded, parseIP)
                           == old(ParseItem(toks, idx, pf, urlencoded, parseIP, key, []))
      ensures done ==> Outcome() == old(ParseItem(toks, idx, pf, urlencoded, parseIP, key, []))
                       && (err.Some? ==> pf == EmptyPageFile)
    {
      var opts, item := ReadItem(key);
      ItemEnd(toks, idx - 1, pf, urlencoded, parseIP, key, opts);
      if item.t != Value {
        Errorf("received unexpected item type " + ItemString(item));
        return true;
      }
      var e := ApplyValue(Line(key, opts, item.v));
      if e.Some? {
        Errorf(e.value);
        return true;
      }
      done := false;
    }

    /** pageFileParseFields: items until EOF; any error stops the parse. */
    method ParseFieldsLoop() returns (next: PageFileParseState)
      requires Valid() && idx < |toks| && err.None?
      modifies this`idx, this`pf, this`err
      ensures Valid() && next == Finished
      ensures Outcome() == old(ParseFields(toks, idx, pf, urlencoded, parseIP))
      ensures err.Some? ==> pf == EmptyPageFile
    {
      ghost var goal := ParseFields(toks, idx, pf, urlencoded, parseIP);
      var done := false;
      while !done
        invariant Valid()
        invariant !done ==> idx < |toks| && err.None? && ParseFields(toks, idx, pf, urlencoded, parseIP) == goal
        invariant done ==> Outcome() == goal && (err.Some? ==> pf == EmptyPageFile)
        decreases !done, |toks| - idx
      {
        done := FieldsStep();
      }
      next := Finished;
    }

    /** Runs the state functions from pageFileParseVersion until one
        returns nil. */
    method Run()
      requires Valid() && idx == 0 && pf == EmptyPageFile && err == None
      modifies this`idx, this`pf, this`err, this`urlencoded
      ensures Outcome() == ParseTokens(toks, parseIP)
      ensures err.Some? ==> pf == EmptyPageFile
    {
      var state := AtVersion;
      while state != Finished
        invariant Valid()
        invariant state == AtVersion ==> idx == 0 && pf == EmptyPageFile && err == None
        invariant state == AtFields ==> idx < |toks| && err.None?
        invariant state == AtFields ==> ParseFields(toks, idx, pf, urlencoded, parseIP) == ParseTokens(toks, parseIP)
        invariant state == Finished ==> Outcome() == ParseTokens(toks, parseIP) && (err.Some? ==> pf == EmptyPageFile)
        decreases StateRank(state)
      {
        match state
        case AtVersion =>
          state := ParseVersion();
        case AtFields =>
          state := ParseFieldsLoop();
      }
    }
  }

  /** ParsePageFile: lexes the input and parses its tokens; on an error the
      page file is the empty one. */
  method ParsePageFile(input: string, parseIP: string -> IP) returns (pf: PageFile, err: Option<string>)
    ensures err.None? ==> ParseText(input, parseIP) == Ok(pf)
    ensures err.Some? ==> ParseText(input, parseIP) == Err(err.value) && pf == EmptyPageFile
  {
    var items := LexPageFile(input);
    var parser := new PageFileParser(items, parseIP);
    parser.Run();
    pf, err := parser.pf, parser.err;
  }
}
