# PmWiki page files and their history, in Dafny

This project models the core of a Go library that reads PmWiki's page-file
format and recovers the history of a wiki page. A page file is a text of
lines `key[:opt]*=value`. The flat keys hold the current page: version,
name, time, text, author, host and revision number. Keys with options hold
one revision each: its author, its host, and a diff in the "normal" output
format of the POSIX `diff` utility. Applied to the newer text, that diff
gives the older one.

The model follows the Go files one by one, each in its own module:

- `PageFileLex` (pagefile_lex.go): the page-file lexer.
  - `BeginTokens`, `FieldTokens` and `ValueTokens` give the tokens it sends
    for the rest of its input.
  - The class `PageFileLexer` is the lexer itself, with its read position
    and the items sent so far.
  - Its `Run` is proved to send exactly `Tokens(input)`.
- `PageFileParse` (pagefile_parse.go): the page-file parser.
  - `ParseTokens`, `ParseFields` and `ParseItem` say what it makes of a
    token sequence.
  - The class `PageFileParser` holds the parser's `pf`, `err` and
    `urlencoded` fields and a cursor into the token stream.
  - Its state methods are proved against those functions.
- `PatchLex` (patch_lex.go): the diff lexer.
  - It works on the cursor fields `start`, `pos` and `width`.
  - `Run` sends exactly `Tokens(data)`.
- `PatchParse` (patch_parse.go): the diff parser.
  - It has a look-ahead stack `lexBuff` and a pending action `nextPatch`.
  - `Run` gives exactly `ParseTokens(toks)`.
- `Patches` (patch.go): applying a patch to a text.
  - `Apply` runs over a line scanner and a line writer.
  - It is proved to write what `ApplyLines` says, stage by stage.
  - `ApplyIsEdit` proves that this is the usual reading of a normal-format
    diff on every input the patch fits.
- `PageFiles` (pagefile.go): the records `PageFile` and `PageFileRevision`
  and `PageFile.Revisions`.
  - Revisions walks the revision chain backwards from the current text.
  - `Revisions` returns the views it delivers, the error that stopped it,
    and whether the fuel bound ran out.
  - The specification of that result is `RevisionViews`.
- `PageFileSort` (pagefile_sort.go): `ByTime` over an array of views.
  - Sorting by `Less` and `Swap` gives views in time order.
- `Base`: the small part of Go's standard library the core calls:
  - `strconv.ParseInt` and `strconv.Atoi`;
  - `url.QueryUnescape`;
  - `strings.TrimSpace`, `strings.Contains` and `strings.ReplaceAll`;
  - `unicode.IsSpace` and `unicode.IsDigit`;
  - the line splitting of `bufio.Scanner`.

Values follow Go:
- A `time.Time` is its Unix second.
- The zero `time.Time{}` is the constant `ZeroTime`, the Unix second of
  0001-01-01 UTC. So a time of 0 counts as set, as it does in the code.
- An IP address is a byte sequence, and the empty sequence stands for nil.
- `net.ParseIP` is a parameter `parseIP` of the parser.

## Model

| member | source | states |
|---|---|---|
| PageFileLex.TypeCode | pagefile_lex.go:15-31 | token types number 1 to 5 in declaration order after the blank iota |
| PageFileLex.EmptyInputIsEOF | pagefile_lex.go:52-57 | the empty input lexes to exactly one EOF token |
| PageFileLex.TokensTerminated | pagefile_lex.go:135-139 | every token stream ends in EOF or Error, and no earlier token is either |
| PageFileLex.BeginTerminated | pagefile_lex.go:52-61 | from the start of a line, the stream ends in exactly one EOF or Error |
| PageFileLex.FieldTerminated | pagefile_lex.go:81-105 | from inside a key or key option, the stream ends in exactly one EOF or Error |
| PageFileLex.ValueTerminated | pagefile_lex.go:108-121 | from inside a value, the stream ends in exactly one EOF or Error |
| PageFileLex.JoinTokens | pagefile_lex.go:81-121 | when the stream ends in EOF, the tokens printed back (key, ":" opt, "=" value "\n") give the input exactly |
| PageFileLex.JoinBegin | pagefile_lex.go:52-61 | the same reconstruction from the start of a line |
| PageFileLex.JoinField | pagefile_lex.go:81-105 | the same reconstruction from inside a key or key option |
| PageFileLex.JoinFieldColon | pagefile_lex.go:91-92 | the same, when a ":" ends the field |
| PageFileLex.JoinFieldEquals | pagefile_lex.go:94-95 | the same, when a "=" ends the field |
| PageFileLex.JoinFieldChar | pagefile_lex.go:97-101 | the same, when the field grows by one character |
| PageFileLex.JoinValue | pagefile_lex.go:108-121 | the same from inside a value |
| PageFileLex.LexRender | pagefile_lex.go:76-121 | well-formed lines lex to Key, one KeyOpt per option and Value, in order, then EOF; empty options and values included |
| PageFileLex.LexLine | pagefile_lex.go:81-121 | one well-formed line followed by any text lexes to the line's tokens followed by the text's |
| PageFileLex.LexFieldRest | pagefile_lex.go:97-101 | characters that are not ":", "=" or white space only grow the field |
| PageFileLex.LexOpts | pagefile_lex.go:76-95 | after the first field, each ":"-separated field is a KeyOpt, and "=" starts the value |
| PageFileLex.LexValueRest | pagefile_lex.go:108-120 | a value is everything after the first "=" up to the newline, "=" and ":" included |
| PageFileLex.WhiteSpaceInField | pagefile_lex.go:97-99 | white space inside a key or key option, newline included, gives one Error token and lexing stops |
| PageFileLex.WhiteSpaceInKey | pagefile_lex.go:97-99 | a line whose key holds white space lexes to just that Error |
| PageFileLex.EOFOnlyAfterNewline | pagefile_lex.go:85-87 | EOF is sent only for an empty input or one that ends in a newline; input that ends inside a key, option or value gives Error |
| PageFileLex.BeginEOF | pagefile_lex.go:52-61 | the same from the start of a line |
| PageFileLex.FieldEOF | pagefile_lex.go:85-87 | the same from inside a field: there must be a newline ahead |
| PageFileLex.ValueEOF | pagefile_lex.go:111-113 | the same from inside a value |
| PageFileLex.PageFileLexer.constructor | pagefile_lex.go:124-128 | a new lexer reads from the start of its input and has sent nothing |
| PageFileLex.PageFileLexer.Next | pagefile_lex.go:142-145 | next gives the rune at the read position and moves past it, or reports the end of the input |
| PageFileLex.PageFileLexer.Backup | pagefile_lex.go:148-152 | backup steps back over the rune just read, which the reader allows once |
| PageFileLex.PageFileLexer.Emit | pagefile_lex.go:155-158 | emit sends one token and returns the next state |
| PageFileLex.PageFileLexer.Errorf | pagefile_lex.go:161-163 | errorf sends an Error token and stops |
| PageFileLex.PageFileLexer.Eof | pagefile_lex.go:166-168 | eof sends an EOF token and stops |
| PageFileLex.PageFileLexer.LexBegin | pagefile_lex.go:52-61 | the sent tokens plus those still due equal those due from the start of a line |
| PageFileLex.PageFileLexer.LexKeyOrKeyOpt | pagefile_lex.go:81-105 | the same for the Key and KeyOpt states; the position never moves back |
| PageFileLex.PageFileLexer.LexVal | pagefile_lex.go:108-121 | the same for the value state |
| PageFileLex.PageFileLexer.Run | pagefile_lex.go:135-139 | running the states until one stops sends exactly Tokens(input) |
| PageFileLex.LexPageFile | pagefile_lex.go:124-132 | lexPageFile delivers Tokens(input), which ends in exactly one EOF or Error |
| PageFileParse.NextTypeAt | pagefile_parse.go:32-43 | nextType skips to the wanted type, or reports EOF, a lexer error, or "not found" after max items |
| PageFileParse.AcceptAt | pagefile_parse.go:46-55 | acceptItem succeeds only when the next tokens are exactly the expected ones |
| PageFileParse.AcceptStep | pagefile_parse.go:47-52 | a wrong type is reported before a wrong value, one token at a time |
| PageFileParse.MainItem | pagefile_parse.go:128-183 | an unknown main key leaves the page unchanged; no main item touches version, revisions or deletion time |
| PageFileParse.MainItemOnce | pagefile_parse.go:129-176 | a main field that an item has set cannot be set again |
| PageFileParse.BadMainValue | pagefile_parse.go:140-141 | a non-integer time or rev, or a host that does not parse, is an error |
| PageFileParse.RevItem | pagefile_parse.go:186-241 | an empty value, a non-integer first option or an unknown key is ignored; otherwise only the entry at the first option's time changes |
| PageFileParse.RevItemOnce | pagefile_parse.go:203-222 | a revision field that an item has set cannot be set again at the same time |
| PageFileParse.MainItemSets | pagefile_parse.go:128-176 | an unset name, text or author takes the value; an unset time or rev takes the integer the value spells; an unset host takes the parsed address |
| PageFileParse.RevItemSets | pagefile_parse.go:199-217 | a non-empty author or host under an integer time fills that field of the revision at that time when unset; all else stays |
| PageFileParse.HostLine | pagefile_parse.go:209-217 | a host line under an integer time sets the host of the revision there, when unset |
| PageFileParse.DiffLine | pagefile_parse.go:219-231 | a diff line under an integer time, against another, sets the decoded diff and the time it is against, when unset |
| PageFileParse.MainFieldsApply | pagefile_parse.go:128-183 | the six main field lines take the empty page file to the one holding exactly those values |
| PageFileParse.MainFieldsPage | pagefile_parse.go:244-254 | a written page of the six main fields parses to a page file with exactly those values and no revisions |
| PageFileParse.MainFieldsExample | pagefile_parse.go:128-176 | name A, time 100, author u, host ::1, rev 3 and text hi parse to those six fields |
| PageFileParse.RevisionLinesApply | pagefile_parse.go:186-241 | text, host and diff lines give that text and a single revision with the host, the decoded diff and the time it is against |
| PageFileParse.RevisionIndexPage | pagefile_parse.go:244-254 | a written urlencoded page of those lines parses to exactly that page file |
| PageFileParse.RevisionIndexExample | pagefile_parse.go:219-231 | text t, host:42=::1 and diff:42:23:=0a1%0a> add%0a give one revision at 42, against 23, with the diff "0a1\n> add\n" |
| PageFileParse.DecodeDiffExample | pagefile_parse.go:100-104 | the urlencoded value "0a1%0a> add%0a" decodes to "0a1\n> add\n" |
| PageFileParse.ApplyLinesChain | pagefile_parse.go:82-123 | lines that each take one state to the next take the first state to the last |
| PageFileParse.ApplyLinesAppend | pagefile_parse.go:82-123 | a run of lines after another starts where the first ended, unless the first failed |
| PageFileParse.DiffItem | pagefile_parse.go:219-231 | a diff item succeeds exactly when a second option exists and parses; it stores the raw diff and the time it is against |
| PageFileParse.PlainValue | pagefile_parse.go:100-107 | a value without "%" is kept as it is, decoded or not |
| PageFileParse.ItemOpt | pagefile_parse.go:95-98 | a KeyOpt token adds an option to the item |
| PageFileParse.ItemEnd | pagefile_parse.go:100-112 | a Value ends the item; any other token is an unexpected item type |
| PageFileParse.EmptyInputFails | pagefile_parse.go:66-69 | the empty input fails: the version key is expected but EOF arrives |
| PageFileParse.VersionFirst | pagefile_parse.go:66-76 | a successful parse starts with Key "version" and its Value, which becomes the version |
| PageFileParse.VersionWithKeyOpts | pagefile_parse.go:71-72 | a version item with key options fails |
| PageFileParse.FieldsOk | pagefile_parse.go:82-125 | the fields parse succeeds only at EOF, and never changes version or deletion time |
| PageFileParse.ItemOk | pagefile_parse.go:91-123 | the same for one item and what follows |
| PageFileParse.FieldsLast | pagefile_parse.go:84-86 | a successful parse ends at the EOF token |
| PageFileParse.ParsedTextEndsInNewline | pagefile_parse.go:244-253 | only an input that ends in a newline parses |
| PageFileParse.ApplyLineKeepsRevisionTimes | pagefile_parse.go:199-239 | an item never sets the time of a revision entry |
| PageFileParse.FieldsKeepRevisionTimes | pagefile_parse.go:82-125 | no sequence of items sets a revision time |
| PageFileParse.ItemKeepsRevisionTimes | pagefile_parse.go:91-123 | the same for one item and what follows |
| PageFileParse.ParsedRevisionTimesUnset | pagefile_parse.go:244-253 | every revision of a parsed page file has the zero time |
| PageFileParse.ParsedViewTimes | pagefile.go:66-69 | so every view of the walk over a parsed page carries the zero time |
| PageFileParse.OptsRun | pagefile_parse.go:95-98 | a run of KeyOpt tokens becomes the item's options, in order |
| PageFileParse.OneLine | pagefile_parse.go:84-98 | a Key and its options start one item |
| PageFileParse.KeyStartsItem | pagefile_parse.go:84-95 | a Key token starts an item with no options |
| PageFileParse.LineStep | pagefile_parse.go:84-123 | the tokens of one line are parsed as one item |
| PageFileParse.ItemThenRest | pagefile_parse.go:116-123 | an item that applies is followed by the rest of the items |
| PageFileParse.ItemFails | pagefile_parse.go:121-122 | an item that fails fails the parse |
| PageFileParse.FieldsOfLines | pagefile_parse.go:82-125 | the tokens of a sequence of lines, then EOF, parse to those lines applied in order |
| PageFileParse.ParseRendered | pagefile_parse.go:66-125 | a rendered page file parses to its lines applied to an empty page with that version; the decode flag is whether the version contains "urlencoded=1" |
| PageFileParse.VersionThenFields | pagefile_parse.go:66-79 | after the version item, the fields parse gives the result |
| PageFileParse.PageFileParser.constructor | pagefile_parse.go:244-248 | a new parser has an empty page, no error and no decoding, at the first token |
| PageFileParse.PageFileParser.Next | pagefile_parse.go:27-29 | next takes the next token |
| PageFileParse.PageFileParser.NextType | pagefile_parse.go:32-43 | nextType moves the cursor as NextTypeAt says and returns its verdict |
| PageFileParse.PageFileParser.AcceptItem | pagefile_parse.go:46-55 | acceptItem moves the cursor as AcceptAt says and returns its error |
| PageFileParse.PageFileParser.Errorf | pagefile_parse.go:58-63 | errorf resets the page to the empty page file and keeps the error |
| PageFileParse.PageFileParser.ParseVersion | pagefile_parse.go:66-79 | the version state either ends the parse with its error or leaves the rest to the fields state |
| PageFileParse.PageFileParser.ParseMainItem | pagefile_parse.go:128-183 | updates the page as MainItem says; on error the page is unchanged |
| PageFileParse.PageFileParser.ParseRev | pagefile_parse.go:186-241 | updates the revisions as RevItem says; on error the page is unchanged |
| PageFileParse.PageFileParser.ReadItem | pagefile_parse.go:94-114 | collects the options of an item up to its first token that is not a KeyOpt |
| PageFileParse.PageFileParser.DecodeItem | pagefile_parse.go:100-107 | a value is decoded with "+" kept literal when the page is urlencoded; a decoding error is wrapped |
| PageFileParse.PageFileParser.ApplyValue | pagefile_parse.go:100-123 | one item's value, decoded and applied, as ApplyLine says |
| PageFileParse.PageFileParser.FieldsStep | pagefile_parse.go:83-123 | one pass of the fields loop keeps the result of the rest of the parse |
| PageFileParse.PageFileParser.ItemStep | pagefile_parse.go:91-123 | one item keeps the result of the rest of the parse |
| PageFileParse.PageFileParser.ParseFieldsLoop | pagefile_parse.go:82-125 | the fields loop ends with the result ParseFields gives; any error leaves the empty page |
| PageFileParse.PageFileParser.Run | pagefile_parse.go:250-251 | the state loop gives ParseTokens(toks); an error leaves the empty page |
| PageFileParse.ParsePageFile | pagefile_parse.go:244-254 | ParsePageFile gives the parse of the input's tokens; on error, the empty page file |
| PatchLex.TypeCode | patch_lex.go:11-29 | token types number 1 to 6 in declaration order after the blank iota |
| PatchLex.ExpectFrom | patch_lex.go:220-229 | expect succeeds only if the data holds the expected text |
| PatchLex.ExpectIffPrefix | patch_lex.go:220-229 | expect succeeds exactly when the data goes on with the expected text |
| PatchLex.BlankInputIsEOF | patch_lex.go:55-66 | empty input, or newlines only, lexes to a single EOF token |
| PatchLex.TokensTerminated | patch_lex.go:202-206 | every token stream ends in EOF or Error, and no earlier token is either |
| PatchLex.BeginTerminated | patch_lex.go:55-82 | the same from the start of a line |
| PatchLex.RangeTerminated | patch_lex.go:85-111 | the same from inside a range |
| PatchLex.ModeTerminated | patch_lex.go:114-125 | the same from the mode |
| PatchLex.DashTerminated | patch_lex.go:128-135 | the same from a dash line |
| PatchLex.AddOrDelTerminated | patch_lex.go:154-188 | the same from an addition or deletion line |
| PatchLex.BodyTerminated | patch_lex.go:176-186 | the same from inside the text of such a line |
| PatchLex.TokensWellTyped | patch_lex.go:85-188 | a Range is digits with at most one comma, a Mode is one of a, d and c, and a line token holds no newline |
| PatchLex.BeginWellTyped | patch_lex.go:55-82 | the same from the start of a line |
| PatchLex.RangeWellTyped | patch_lex.go:85-111 | a range collects digits and at most one comma |
| PatchLex.ModeWellTyped | patch_lex.go:114-125 | the mode token is exactly one of a, d and c |
| PatchLex.DashWellTyped | patch_lex.go:128-135 | a dash line sends no token of its own |
| PatchLex.AddOrDelWellTyped | patch_lex.go:154-188 | the marker and the space after it are not part of a line token |
| PatchLex.BodyWellTyped | patch_lex.go:176-186 | a line token ends before the newline |
| PatchLex.EOFOnlyAfterNewline | patch_lex.go:89-91 | EOF is sent only for an empty input or one that ends in a newline; input that ends inside a range, mode or line gives Error |
| PatchLex.BeginEOF | patch_lex.go:55-61 | the same from the start of a line |
| PatchLex.RangeEOF | patch_lex.go:89-91 | the same from inside a range |
| PatchLex.ModeEOF | patch_lex.go:115-118 | the same from the mode |
| PatchLex.DashEOF | patch_lex.go:129-131 | the same from a dash line |
| PatchLex.AddOrDelEOF | patch_lex.go:161-173 | the same from an addition or deletion line |
| PatchLex.BodyEOF | patch_lex.go:176-180 | the same from inside the text of such a line |
| PatchLex.LexRender | patch_lex.go:55-188 | a diff written hunk by hunk lexes to each hunk's ranges, mode and lines, in order, then EOF |
| PatchLex.LexHunk | patch_lex.go:55-188 | one hunk followed by any text lexes to the hunk's tokens followed by the text's |
| PatchLex.LexHeaderLine | patch_lex.go:85-125 | a header line lexes to its two ranges around its mode |
| PatchLex.LexHunkLines | patch_lex.go:128-188 | the deleted lines, a change's "---" and the added lines lex to one token per line |
| PatchLex.LexRange | patch_lex.go:85-111 | a range ends before a mode character or a newline |
| PatchLex.LexCommaDigits | patch_lex.go:96-100 | one comma and digits after it continue the range |
| PatchLex.RangeStops | patch_lex.go:101-106 | a mode character or a newline ends the range; a mode follows the first |
| PatchLex.LexDigits | patch_lex.go:94-95 | digits continue the range |
| PatchLex.LexLines | patch_lex.go:154-188 | the lines of one half of a hunk lex to one token each |
| PatchLex.LexLine | patch_lex.go:160-186 | "> text" or "< text" lexes to a token holding just the text |
| PatchLex.LexBody | patch_lex.go:176-186 | the text of a line runs to the newline |
| PatchLex.LexBodyFrom | patch_lex.go:176-186 | the same with some text already read |
| PatchLex.LexDash | patch_lex.go:128-135 | the "---" line of a change sends no token |
| PatchLex.PatchLexer.constructor | patch_lex.go:191-195 | a new lexer starts at the beginning of its data and has sent nothing |
| PatchLex.PatchLexer.Next | patch_lex.go:209-217 | next gives the rune at pos and moves past it, or reports the end of the data |
| PatchLex.PatchLexer.Backup | patch_lex.go:232-234 | backup moves pos back by the width of the last rune |
| PatchLex.PatchLexer.Ignore | patch_lex.go:237-239 | ignore drops the text read since the last token |
| PatchLex.PatchLexer.Emit | patch_lex.go:242-246 | emit sends data[start:pos] with its type and moves start to pos |
| PatchLex.PatchLexer.Errorf | patch_lex.go:249-252 | errorf sends an Error token and stops |
| PatchLex.PatchLexer.Eof | patch_lex.go:255-258 | eof sends an EOF token and stops |
| PatchLex.PatchLexer.Expect | patch_lex.go:220-229 | expect reads the expected text, or reports where it differs |
| PatchLex.PatchLexer.LexBegin | patch_lex.go:55-82 | the sent tokens plus those still due equal those due from the start of a line |
| PatchLex.PatchLexer.LexRange | patch_lex.go:85-111 | the same for the range state |
| PatchLex.PatchLexer.RangeStep | patch_lex.go:88-110 | one rune of the range loop keeps the tokens due |
| PatchLex.PatchLexer.RangeRune | patch_lex.go:94-100 | a digit, or the first comma, continues the range; a second comma is an error |
| PatchLex.PatchLexer.RangeEnd | patch_lex.go:101-109 | a mode character or newline ends the range; any other rune is an error |
| PatchLex.PatchLexer.EndRange | patch_lex.go:102-106 | the rune that ended the range is put back and the range sent |
| PatchLex.PatchLexer.LexMode | patch_lex.go:114-125 | the same as LexBegin for the mode state |
| PatchLex.PatchLexer.LexDash | patch_lex.go:128-135 | the same for the dash state |
| PatchLex.PatchLexer.LexAddOrDel | patch_lex.go:154-188 | the same for the addition and deletion states |
| PatchLex.PatchLexer.LexLineText | patch_lex.go:176-186 | the text of a line is sent as BodyTokens says |
| PatchLex.PatchLexer.LineTextStep | patch_lex.go:177-185 | one rune of a line's text keeps the tokens due |
| PatchLex.PatchLexer.Run | patch_lex.go:202-206 | running the states until one stops sends exactly Tokens(data) |
| PatchLex.LexPatch | patch_lex.go:191-199 | lexPatch delivers Tokens(data), which ends in exactly one EOF or Error |
| PatchParse.NextTypeOf | patch_parse.go:45-56 | nextType with a limit of one: the value of a token of the wanted type, else EOF, the lexer's error or an error of its own |
| PatchParse.StartLineOf | patch_parse.go:97-103 | the start line is the integer before any comma in the first range |
| PatchParse.ModeOf | patch_parse.go:105-121 | the mode is accepted exactly when it is a, d or c |
| PatchParse.StartOfRange | patch_parse.go:99-102 | for a range written by the diff utility, the start line is its first line number |
| PatchParse.BlankPatch | patch_parse.go:76-79 | blank input parses to the empty patch |
| PatchParse.AdditionsRun | patch_parse.go:131-139 | an addition hunk collects the consecutive Addition tokens |
| PatchParse.AdditionsEnd | patch_parse.go:137-138 | the first token that is not an addition is put back and parsing starts over |
| PatchParse.AdditionsPrefix | patch_parse.go:132-135 | addition lines are appended in order |
| PatchParse.DeletionsRun | patch_parse.go:143-146 | deletion lines are appended in order |
| PatchParse.HunkHeader | patch_parse.go:94-128 | a header Range, Mode, Range starts an action of that mode at its start line |
| PatchParse.HunkBody | patch_parse.go:131-154 | an action collects its deletions and then, for a change, its additions, up to the next header or EOF |
| PatchParse.DeletingHunkBody | patch_parse.go:142-154 | the same for a deletion or a change |
| PatchParse.DeletionsEnd | patch_parse.go:148-150 | after its deletions, a change reads additions |
| PatchParse.ParseHunks | patch_parse.go:67-91 | each header gives one action, emitted in source order |
| PatchParse.ParseRender | patch_parse.go:157-163 | a diff written hunk by hunk parses back to the hunks' actions |
| PatchParse.StartOkAtEOF | patch_parse.go:76-91 | a parse succeeds only at the EOF token |
| PatchParse.HeaderOkAtEOF | patch_parse.go:94-128 | the same from a header |
| PatchParse.ModeOkAtEOF | patch_parse.go:105-127 | the same from the mode |
| PatchParse.EndRangeOkAtEOF | patch_parse.go:123-127 | the same from the second range |
| PatchParse.AdditionsOkAtEOF | patch_parse.go:131-139 | the same from addition lines |
| PatchParse.DeletionsOkAtEOF | patch_parse.go:142-154 | the same from deletion lines |
| PatchParse.OkOnlyAfterNewline | patch_parse.go:157-163 | only a diff that is empty or ends in a newline parses |
| PatchParse.HeadlessLine | patch_parse.go:87-89 | an addition or deletion line before any header is an invalid item |
| PatchParse.StartAtHeader | patch_parse.go:84-86 | tokens that begin with a range are parsed as a header |
| PatchParse.StrayAddition | patch_parse.go:149-153 | an addition line inside a deletion hunk is an invalid item |
| PatchParse.DeletionHunkHead | patch_parse.go:94-148 | a deletion hunk's header and lines leave the action pending |
| PatchParse.DeletionThenAddition | patch_parse.go:149-153 | an addition after the lines of a "d" hunk fails the parse |
| PatchParse.AdditionAfterDeletion | patch_parse.go:149-153 | a "d" hunk written with an added line fails to parse |
| PatchParse.PatchParser.constructor | patch_parse.go:158 | a new parser has no actions, no error, no pending action and an empty look-ahead |
| PatchParse.PatchParser.Next | patch_parse.go:28-37 | next returns a token put back before it takes a new one |
| PatchParse.PatchParser.Backup | patch_parse.go:40-42 | backup pushes the token back |
| PatchParse.PatchParser.NextType | patch_parse.go:45-56 | nextType with limit one reads one token and answers as NextTypeOf |
| PatchParse.PatchParser.ReadStartLine | patch_parse.go:97-103 | the first range of a header as a start line |
| PatchParse.PatchParser.ReadMode | patch_parse.go:105-107 | the mode token of a header |
| PatchParse.PatchParser.Errorf | patch_parse.go:59-64 | errorf drops every action and keeps the error |
| PatchParse.PatchParser.Emit | patch_parse.go:67-73 | emit appends the pending action, if there is one |
| PatchParse.PatchParser.ParseStartStep | patch_parse.go:76-91 | the start state keeps the result of the parse that is due |
| PatchParse.PatchParser.ParseHeaderStep | patch_parse.go:94-128 | the header state keeps the result of the parse that is due |
| PatchParse.PatchParser.ParseModeStep | patch_parse.go:105-127 | the mode and the second range keep it too |
| PatchParse.PatchParser.ParseAdditionStep | patch_parse.go:131-139 | the addition state keeps it |
| PatchParse.PatchParser.ReadAdditions | patch_parse.go:132-135 | the loop over addition lines appends each |
| PatchParse.PatchParser.ParseDeletionStep | patch_parse.go:142-154 | the deletion state keeps it |
| PatchParse.PatchParser.ReadDeletions | patch_parse.go:143-146 | the loop over deletion lines appends each |
| PatchParse.PatchParser.Run | patch_parse.go:159-160 | the state loop gives ParseTokens(toks); an error leaves no actions |
| PatchParse.ParsePatch | patch_parse.go:157-163 | parsePatch gives the parse of the data's tokens; on error, no actions |
| Patches.MatchedCount | patch.go:39-47 | the deletion loop never consumes more lines than the action deletes or the input holds |
| Patches.MatchedCountSpec | patch.go:39-47 | the lines consumed all match, and the loop stops at the first mismatch |
| Patches.MatchedAll | patch.go:39-47 | when all expected lines match, all are consumed |
| Patches.MatchedCountUnique | patch.go:39-47 | the consumed count is the only one with these properties |
| Patches.ApplyAction | patch.go:37-64 | apply consumes at most its deletion lines, all of them unless the input ends, and writes exactly its addition lines; only a deletion or change fails |
| Patches.DeletionApplies | patch.go:38-53 | a deletion whose lines all match, equal or trimmed, consumes all of them |
| Patches.ApplyIsEdit | patch.go:70-104 | on every input a patch fits, Apply writes the edited text: lines added after line s, deleted or replaced from line s on, the rest kept, and no error |
| Patches.EmptyPatchCopies | patch.go:70-104 | an empty patch copies every input line |
| Patches.KeepLine | patch.go:84-91 | a line before the next action is copied unchanged |
| Patches.DeletionRuns | patch.go:75-82 | a deletion or change at the current line consumes exactly its deleted lines and writes its addition lines |
| Patches.DeletionEdits | patch.go:75-82 | in the edited text, a deletion or change replaces its lines with its additions |
| Patches.FitsDeletion | patch.go:75-82 | a fitting deletion lies inside the input and its lines match |
| Patches.ApplyFromFires | patch.go:75-82 | a deletion or change at the current line fires first; the cursor moves by what it consumed |
| Patches.EditOfDeletion | patch.go:75-82 | a deletion or change at its own line keeps no line before it |
| Patches.TopOfLoop | patch.go:73-103 | from the top of the loop, Apply writes the rest of the edited text |
| Patches.CopyFromFits | patch.go:84-100 | the copy stage writes the rest of the edited text |
| Patches.CopyThenAdd | patch.go:84-100 | one input line is copied, then an addition at that line is written |
| Patches.CopyOnly | patch.go:84-102 | one input line is copied when no addition starts there |
| Patches.LaterActionsDropped | patch.go:84-88 | once the input runs out, actions not yet reached are dropped without error |
| Patches.EmptyPatchText | patch.go:70-104 | an empty patch gives back a text that ends in a newline, and adds the newline a text lacks |
| Patches.SplitLinesOfUnterminated | patch.go:71 | a last line without a newline is read as if it had one |
| Patches.OutputNewlineTerminated | patch.go:57 | every line written, copied or added, ends in a newline |
| Patches.LineScanner.constructor | patch.go:71 | the scanner starts before the first line |
| Patches.LineScanner.Scan | patch.go:86 | Scan reads the next line exactly when one is left |
| Patches.LineWriter.constructor | pagefile.go:79 | the builder starts empty |
| Patches.LineWriter.WriteLine | patch.go:57 | printing a line and "\n" appends the line |
| Patches.ApplyActionTo | patch.go:37-64 | apply on the scanner reads and writes as ApplyAction says; on a mismatch it has read one line more and written nothing |
| Patches.DeleteStage | patch.go:74-82 | the first stage of the loop writes and fails as ApplyFrom says |
| Patches.CopyStageTo | patch.go:84-91 | the second stage copies one line, or ends the loop at the end of the input |
| Patches.AddStageTo | patch.go:93-102 | the third stage writes an addition that starts at this line and moves the line counter on |
| Patches.ApplyRound | patch.go:73-103 | one round of the loop keeps what the rest of the walk writes |
| Patches.Apply | patch.go:70-104 | Apply writes exactly the lines ApplyLines gives for the input's lines, and its error |
| PageFiles.ApplyDiff | pagefile.go:79-84 | the diff is parsed and applied to the current text, giving the older text or the error |
| PageFiles.WalkStep | pagefile.go:66-84 | a step delivers the view of the current text and goes on from the older text and the revision its diff is against |
| PageFiles.WalkEnds | pagefile.go:61-64 | the walk ends without error at an empty text, with "revision N is missing" at a missing entry |
| PageFiles.WalkFails | pagefile.go:79-82 | a diff that fails ends the walk with its error after the current view |
| PageFiles.Advance | pagefile.go:75-84 | one pass of the loop delivers a view and moves on, or stops with the diff's error |
| PageFiles.Revisions | pagefile.go:40-87 | Revisions delivers exactly the views RevisionViews gives, with its error |
| PageFiles.DeletedViewLast | pagefile.go:41-51 | for a deleted page, the last view has empty text and author, host ::1, the deletion time and Rev+1, even when the walk fails |
| PageFiles.NoRevisionsOneView | pagefile.go:53-56 | without revisions, the page itself is delivered once, with no error |
| PageFiles.CurrentRevisionMissing | pagefile.go:61-64 | a page whose current time has no entry fails at once with "revision N is missing" |
| PageFiles.WalkShape | pagefile.go:59-77 | view k has the page's version and name, non-empty text and Rev minus k; the fuel bound limits the walk |
| PageFiles.RevisionNumbers | pagefile.go:58-77 | view k of a page's walk has revision number Rev minus k and non-empty text |
| PageFiles.ChainViews | pagefile.go:66-75 | the views of a chain of revisions take text, author, host and time from the chain, numbered down |
| PageFiles.WalkFollowsChain | pagefile.go:61-84 | along a chain of revisions linked by DiffAgainst, the walk delivers the chain's views in order, then goes on from its end |
| PageFiles.EmptyTextEndsWalk | pagefile.go:61 | the walk stops without error at the first empty text |
| PageFiles.MissingRevisionEndsWalk | pagefile.go:61-64 | a missing entry ends the walk with its error after the views before it |
| PageFiles.BadDiffEndsWalk | pagefile.go:79-82 | a failing diff ends the walk with its error; the views before it stand |
| PageFiles.SelfLoopNeverEnds | pagefile.go:61 | a revision diffed against itself with an empty diff never ends the walk: every fuel bound is used up |
| PageFiles.WalkViewTimes | pagefile.go:69 | the views take their time from the revision entries |
| PageFileSort.Len | pagefile_sort.go:7-9 | Len is the number of views |
| PageFileSort.LessIsStrictWeakOrder | pagefile_sort.go:12-14 | Less, time strictly before, is a strict weak order; views ordered neither way have the same time |
| PageFileSort.Swap | pagefile_sort.go:17-19 | Swap exchanges views i and j and leaves every other view in place |
| PageFileSort.Insert | pagefile_sort.go:12-19 | insertion through Less and Swap extends the sorted prefix by one and keeps the same views |
| PageFileSort.SortByTime | pagefile_sort_test.go:24-30 | sorting by time gives views in non-decreasing time order, a permutation of those given |
| Base.TrimSpaceIsInnerSlice | patch.go:44 | trimming removes exactly the white space at both ends |
| Base.ContainsIffSlice | pagefile_parse.go:74 | the page is urlencoded exactly when "urlencoded=1" occurs in its version |
| Base.EscapePlus | pagefile_parse.go:102 | every "+" becomes "%2b", so none is left |
| Base.UnescapeKeepsPlus | pagefile_parse.go:101-104 | a value without "%" decodes to itself: "+" stays literal |
| Base.UnescapePlusCode | pagefile_parse.go:102 | "%2b" decodes to "+" |
| Base.QueryUnescape | pagefile_parse.go:102-104 | decoding never lengthens a value and fails only at a "%" |
| Base.UnescapeFailsIff | pagefile_parse.go:102-104 | decoding fails exactly when some "%" is not followed by two hexadecimal digits |
| Base.UnescapeFirstBadEscape | pagefile_parse.go:102-104 | the error is "invalid URL escape " and the quoted text of the first such "%" and the at most two characters after it |
| Base.UnescapeHexPair | pagefile_parse.go:102 | "%" and two hexadecimal digits decode to the character with that code, in front of the decoded rest; an error in the rest is the error |
| Base.UnescapePlain | pagefile_parse.go:102 | a character other than "%" decodes to itself, "+" to a space, in front of the decoded rest |
| Base.UnescapePlainRun | pagefile_parse.go:102 | a run without "%" and "+" decodes to itself in front of the decoded rest |
| Base.EscapePlusLength | pagefile_parse.go:102 | replacing "+" with "%2b" lengthens the value by two per "+" |
| Base.EscapePlusNoPlus | pagefile_parse.go:102 | a value without "+" is left as it is |
| Base.QuoteRune | pagefile_parse.go:140-141 | a printable rune other than a double quote or backslash is written as it is; every other rune becomes a backslash escape of printable characters |
| Base.Quote | pagefile_parse.go:140-141 | the quoted form lies between double quotes, is at least two longer than the text and holds only printable runes |
| Base.QuoteBodyIdentity | pagefile_parse.go:140-141 | quoting leaves the text between the quotes unchanged exactly when every rune is plain |
| Base.QuoteTab | pagefile_parse.go:140-141 | a tab is quoted as "\t" |
| Base.DecimalQuotesPlainly | patch_parse.go:99-100 | a number in decimal is quoted as its digits between double quotes |
| Base.ParseIntForms | pagefile_parse.go:140-143 | digits parse to their value when it fits in 64 bits; a "+" sign or a leading zero changes nothing; a "-" sign negates and allows one more |
| Base.ParseInt | pagefile_parse.go:140-143 | a parsed integer fits in 64 bits and comes from a sign or digit then digits |
| Base.ParseIntOfDecimal | pagefile_parse.go:194-197 | the decimal form of a 64-bit natural parses back to it |
| Base.Atoi | patch_parse.go:99-101 | a parse error is "strconv.Atoi: parsing ", the quoted input, then ": value out of range" for well-formed digits and ": invalid syntax" otherwise |
| Base.AtoiOfDecimal | patch_parse.go:99-102 | the decimal form of a natural parses back to it, or is out of range beyond 64 bits |
| Base.SplitLines | patch.go:71 | the scanner's lines hold no newline |
| Base.JoinLines | patch.go:57 | text written line by line ends in a newline unless it is empty |
| Base.SplitJoinLines | patch.go:85-91 | reading back what was written line by line gives the same lines |
| Base.JoinSplitLines | patch.go:85-91 | a text that ends in a newline, read and written line by line, is unchanged |

## Left out

- Goroutines and channels: each lexer runs to completion and the parser reads the finished token sequence. The lexers' `run` loops are the `Run` methods.
- The callback of `Revisions`: modelled as the sequence of views it would receive, in order.
- The deferred deletion view in `Revisions` is appended after the walk's views, which is where a deferred call lands.
- PageFiles.Revisions: the walk in the source has no bound and runs forever on a cycle of revisions whose text never becomes empty, as `SelfLoopNeverEnds` shows. The model stops after `fuel` steps and reports `cut`.
- The source stores the diff of a revision as a `Patch` in the record, but the parser assigns the raw value. The model keeps the raw text and parses it in each step of the walk. A diff that does not parse ends the walk with its error, like a diff that does not apply.
- PageFileRevision.time is never assigned by the parser, so every view of a parsed page carries the zero time (`ParsedViewTimes`). The model keeps this, as the code does.
- The `\ No newline at end of file` lines that `diff` may write are rejected by the diff lexer, as in the code.
- An empty diff does not end the walk. It applies as the empty patch, and the walk goes on to the revision it is against.
- pagefile_parse_test.go:17-25 expects the text "%0ahello%0aworld" from a urlencoded page, but the code decodes it. The model follows the code.
- `net.ParseIP` is a parameter `parseIP` of the parser, not a model of IP address syntax. Host `::1` is the 16-byte loopback address.
- `unicode.IsDigit` is restricted to the ASCII digits; `unicode.IsSpace` follows the Unicode White_Space property. Input is a sequence of characters, so there is no UTF-8 decoding and every rune has width 1.
- `bufio` details are not modelled: the 64 KiB token limit of `bufio.Scanner`, the `\r` it strips before `\n`, and read errors from the reader.
- Error messages made with `fmt` are built from their parts; the `strconv` and `net/url` errors quote the failing text as `strconv.Quote` does (`Quote`). Where the code passes a lexer message to `fmt.Errorf` as the format (pagefile_parse.go:39, patch_parse.go:52), the model keeps the message as it is; a `%` in it would be rewritten by Go. The `%v` and `%w` verbs print the wrapped message. The Go syntax of a printed token (`{3 name}`) is rendered as a type code and a value.
- Base.QueryUnescape: each `%XX` becomes the character with code XX where Go yields the byte XX. The two agree below `%80`, but a multi-byte escape such as `%c3%a4` decodes to two characters here and to one rune in Go. PmWiki's writer escapes only `%`, newline and `<`, so its page files hold no such escape.
- Base.IsPrint: exact below U+00A1. Above it, only U+00AD and the Unicode spaces count as non-printable; Go's `strconv.IsPrint` table also escapes unassigned code points and other format runes, so `Quote` may write such a rune as it is where Go writes `\u` and its code.
- PageFileParse.MainItem: `rev` is stored as its int64 value. The conversion `int(rev)` is the identity on a 64-bit platform and is not modelled further.
- PageFiles.Revisions: `Rev+1` and `revNo--` are taken as unbounded integers. The wrap-around of `int` at 64 bits is not modelled.
- PageFileSort.SortByTime: `sort.Sort` is a library algorithm. The model sorts by insertion through `Less` and `Swap` and proves the postcondition the code relies on, a sorted permutation.
- The example of patch_test.go:8-40, a concrete diff applied to a concrete text, is not evaluated. `ParseRender` and `ApplyIsEdit` state the general shape of such a round trip.
- cmd/pmwiki-to-git is not part of this model. It holds file I/O, flag parsing and calls to git.
