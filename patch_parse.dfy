/** The parser that turns the tokens of a normal-format diff into a Patch:
    a header "range mode range" starts a patch action, and the addition and
    deletion lines after it fill it. */
module PatchParse {
  import opened Base
  import opened PatchLex
  import opened Patches

  // ---------------------------------------------------------------------
  // The parse of a token sequence
  // ---------------------------------------------------------------------

  /** "invalid item %v" of a token, which prints as "{type value}". */
  function InvalidItem(item: PatchLexItem): string
  {
    "invalid item {" + Decimal(TypeCode(item.t)) + " " + item.v + "}"
  }

  /** patchParser.nextType(want, 1) on the token read: its value when it has
      the wanted type, io.EOF's message, the lexer's message, or the error
      for a token of another type. */
  function NextTypeOf(item: PatchLexItem, want: PatchLexType): (r: Result<string, string>)
    ensures r.Ok? <==> item.t == want
    ensures r.Ok? ==> r.value == item.v
    ensures item.t != want && item.t == PatchEOF ==> r == Err(MsgEOF)
    ensures item.t != want && item.t == PatchError ==> r == Err(item.v)
  {
    if item.t == want then Ok(item.v)
    else if item.t == PatchEOF then Err(MsgEOF)
    else if item.t == PatchError then Err(item.v)
    else Err("no item with type " + Decimal(TypeCode(want)) + " found in 1 messages")
  }

  /** patchParser.emit: the pending action, if any, joins the patch. */
  function Emitted(done: Patch, cur: Option<PatchAction>): Patch
  {
    if cur.Some? then done + [cur.value] else done
  }

  /** In a terminated token sequence, a token that is not the last one is
      followed by another. */
  lemma {:induction false} NotFinalHasNext(toks: seq<PatchLexItem>, i: nat)
    requires Terminated(toks) && i < |toks| && !IsFinal(toks[i])
    ensures i + 1 < |toks|
  {
  }

  /** patchParseStart at token i, with the actions parsed so far and the one
      being filled. */
  function ParseStart(toks: seq<PatchLexItem>, i: nat, done: Patch, cur: Option<PatchAction>): Result<Patch, string>
    requires Terminated(toks) && i < |toks|
    decreases |toks| - i, 1
  {
    match toks[i].t
    case PatchEOF => Ok(Emitted(done, cur))
    case PatchError => Err(toks[i].v)
    case PatchRange => ParseHeader(toks, i, Emitted(done, cur))
    case _ => Err(InvalidItem(toks[i]))
  }

  /** The action a valid mode starts. */
  function ModeAction(mode: string, start: int): PatchAction
  {
    PatchAction(if mode == "a" then Addition else if mode == "d" then Deletion else Change, start, [], [])
  }

  predicate IsMode(mode: string)
  {
    mode == "a" || mode == "d" || mode == "c"
  }

  /** The first token of a header: a range, whose number before any comma
      is the start line. */
  function StartLineOf(item: PatchLexItem): (r: Result<int, string>)
    ensures r.Ok? ==> item.t == PatchRange && MinInt64 <= r.value <= MaxInt64
    ensures item.t != PatchRange ==> r.Err? && NextTypeOf(item, PatchRange) == Err(r.error)
    ensures item.t == PatchRange && r.Err? ==> HasPrefix(r.error, "cannot parse start range, ")
  {
    match NextTypeOf(item, PatchRange)
    case Err(e) => Err(e)
    case Ok(startRange) =>
      match Atoi(startRange[..IndexOf(startRange, ',')])
      case Err(e) => Err("cannot parse start range, " + e)
      case Ok(start) => Ok(start)
  }

  /** The second token of a header: a, d or c. */
  function ModeOf(item: PatchLexItem): (r: Result<string, string>)
    ensures r.Ok? <==> item.t == PatchMode && IsMode(item.v)
    ensures r.Ok? ==> r.value == item.v
  {
    match NextTypeOf(item, PatchMode)
    case Err(e) => Err(e)
    case Ok(mode) => if !IsMode(mode) then Err("invalid mode value " + mode) else Ok(mode)
  }

  /** patchParseHeader at token i: the start line, then the mode and a
      second range. */
  function ParseHeader(toks: seq<PatchLexItem>, i: nat, done: Patch): Result<Patch, string>
    requires Terminated(toks) && i < |toks|
    decreases |toks| - i, 0
  {
    match StartLineOf(toks[i])
    case Err(e) => Err(e)
    case Ok(start) =>
      NotFinalHasNext(toks, i);
      ParseMode(toks, i + 1, done, start)
  }

  /** The rest of a header, after its first range. */
  function ParseMode(toks: seq<PatchLexItem>, i: nat, done: Patch, start: int): Result<Patch, string>
    requires Terminated(toks) && i < |toks|
    decreases |toks| - i, 0
  {
    match ModeOf(toks[i])
    case Err(e) => Err(e)
    case Ok(mode) =>
      NotFinalHasNext(toks, i);
      ParseEndRange(toks, i + 1, done, ModeAction(mode, start))
  }

  /** The second range of a header, whose value is not used. */
  function ParseEndRange(toks: seq<PatchLexItem>, i: nat, done: Patch, cur: PatchAction): Result<Patch, string>
    requires Terminated(toks) && i < |toks|
    decreases |toks| - i, 0
  {
    match NextTypeOf(toks[i], PatchRange)
    case Err(e) => Err(e)
    case Ok(_) =>
      NotFinalHasNext(toks, i);
      ParseBody(toks, i + 1, done, cur)
  }

  /** The state a header hands over to: the addition lines of an addition,
      the deletion lines otherwise. */
  function ParseBody(toks: seq<PatchLexItem>, i: nat, done: Patch, cur: PatchAction): Result<Patch, string>
    requires Terminated(toks) && i < |toks|
    decreases |toks| - i, 4
  {
    if cur.mode == Addition then ParseAdditions(toks, i, done, cur) else ParseDeletions(toks, i, done, cur)
  }

  /** patchParseAddition: every addition line from token i on joins cur. */
  function ParseAdditions(toks: seq<PatchLexItem>, i: nat, done: Patch, cur: PatchAction): Result<Patch, string>
    requires Terminated(toks) && i < |toks|
    decreases |toks| - i, 2
  {
    if toks[i].t == PatchAddition then
      NotFinalHasNext(toks, i);
      ParseAdditions(toks, i + 1, done, cur.(additionLines := cur.additionLines + [toks[i].v]))
    else ParseStart(toks, i, done, Some(cur))
  }

  /** patchParseDeletion: every deletion line from token i on joins cur; a
      change then goes on with its addition lines. */
  function ParseDeletions(toks: seq<PatchLexItem>, i: nat, done: Patch, cur: PatchAction): Result<Patch, string>
    requires Terminated(toks) && i < |toks|
    decreases |toks| - i, 3
  {
    if toks[i].t == PatchDeletion then
      NotFinalHasNext(toks, i);
      ParseDeletions(toks, i + 1, done, cur.(deletionLines := cur.deletionLines + [toks[i].v]))
    else if cur.mode == Change && toks[i].t == PatchAddition then ParseAdditions(toks, i, done, cur)
    else ParseStart(toks, i, done, Some(cur))
  }

  function ParseTokens(toks: seq<PatchLexItem>): Result<Patch, string>
    requires Terminated(toks)
  {
    ParseStart(toks, 0, [], None)
  }

  /** parsePatch: the patch a diff text describes, or the first error. */
  function ParsePatchText(data: string): Result<Patch, string>
  {
    TokensTerminated(data);
    ParseTokens(Tokens(data))
  }

  // ---------------------------------------------------------------------
  // What the parse accepts
  // ---------------------------------------------------------------------

  /** A diff made only of empty lines, including the empty diff, is the
      empty patch. */
  lemma {:induction false} BlankPatch(data: string)
    requires forall k :: 0 <= k < |data| ==> data[k] == '\n'
    ensures ParsePatchText(data) == Ok([])
  {
    BlankInputIsEOF(data);
  }

  /** A hunk whose lines suit its mode: an addition deletes nothing and a
      deletion adds nothing. */
  predicate Consistent(h: Hunk)
  {
    && WellFormedHunk(h)
    && h.from.first <= MaxInt64
    && (h.mode == 'a' ==> h.deleted == [])
    && (h.mode == 'd' ==> h.added == [])
  }

  /** The action a hunk stands for. */
  function ActionOf(h: Hunk): PatchAction
  {
    PatchAction(ModeAction([h.mode], h.from.first).mode, h.from.first, h.added, h.deleted)
  }

  function ActionsOf(hs: seq<Hunk>): Patch
  {
    if hs == [] then [] else [ActionOf(hs[0])] + ActionsOf(hs[1..])
  }

  /** The addition lines from token i on all join the action, which is
      emitted at the first token after them. */
  lemma {:induction false} AdditionsRun(toks: seq<PatchLexItem>, i: nat, lines: seq<string>, done: Patch, cur: PatchAction)
    requires Terminated(toks) && i + |lines| < |toks|
    requires toks[i..i + |lines|] == LineItems(PatchAddition, lines)
    requires toks[i + |lines|].t != PatchAddition
    ensures ParseAdditions(toks, i, done, cur)
         == ParseStart(toks, i + |lines|, done, Some(cur.(additionLines := cur.additionLines + lines)))
  {
    AdditionsPrefix(toks, i, lines, done, cur);
    AdditionsEnd(toks, i + |lines|, done, cur.(additionLines := cur.additionLines + lines));
  }

  /** The first token that is not an addition ends the action. */
  lemma {:induction false} AdditionsEnd(toks: seq<PatchLexItem>, i: nat, done: Patch, cur: PatchAction)
    requires Terminated(toks) && i < |toks| && toks[i].t != PatchAddition
    ensures ParseAdditions(toks, i, done, cur) == ParseStart(toks, i, done, Some(cur))
  {
  }

  lemma {:induction false} AdditionsPrefix(toks: seq<PatchLexItem>, i: nat, lines: seq<string>, done: Patch, cur: PatchAction)
    requires Terminated(toks) && i + |lines| < |toks|
    requires toks[i..i + |lines|] == LineItems(PatchAddition, lines)
    ensures ParseAdditions(toks, i, done, cur)
         == ParseAdditions(toks, i + |lines|, done, cur.(additionLines := cur.additionLines + lines))
    decreases |lines|
  {
    if lines == [] {
      assert cur.(additionLines := cur.additionLines + lines) == cur;
    } else {
      assert toks[i] == toks[i..i + |lines|][0];
      assert toks[i + 1..i + 1 + |lines[1..]|] == toks[i..i + |lines|][1..];
      var next := cur.(additionLines := cur.additionLines + [lines[0]]);
      assert ParseAdditions(toks, i, done, cur) == ParseAdditions(toks, i + 1, done, next);
      AdditionsPrefix(toks, i + 1, lines[1..], done, next);
      assert lines == [lines[0]] + lines[1..];
      AppendAssoc(cur.additionLines, [lines[0]], lines[1..]);
      assert next.(additionLines := next.additionLines + lines[1..]) == cur.(additionLines := cur.additionLines + lines);
    }
  }

  /** The deletion lines from token i on all join the action. */
  lemma {:induction false} DeletionsRun(toks: seq<PatchLexItem>, i: nat, lines: seq<string>, done: Patch, cur: PatchAction)
    requires Terminated(toks) && i + |lines| < |toks|
    requires toks[i..i + |lines|] == LineItems(PatchDeletion, lines)
    requires toks[i + |lines|].t != PatchDeletion
    ensures ParseDeletions(toks, i, done, cur)
         == ParseDeletions(toks, i + |lines|, done, cur.(deletionLines := cur.deletionLines + lines))
    decreases |lines|
  {
    if lines == [] {
      assert cur.(deletionLines := cur.deletionLines + lines) == cur;
    } else {
      assert toks[i] == toks[i..i + |lines|][0];
      assert toks[i + 1..i + 1 + |lines[1..]|] == toks[i..i + |lines|][1..];
      var next := cur.(deletionLines := cur.deletionLines + [lines[0]]);
      assert ParseDeletions(toks, i, done, cur) == ParseDeletions(toks, i + 1, done, next);
      DeletionsRun(toks, i + 1, lines[1..], done, next);
      assert lines == [lines[0]] + lines[1..];
      AppendAssoc(cur.deletionLines, [lines[0]], lines[1..]);
      assert next.(deletionLines := next.deletionLines + lines[1..]) == cur.(deletionLines := cur.deletionLines + lines);
    }
  }

  lemma {:induction false} LineItemsLength(t: PatchLexType, lines: seq<string>)
    ensures |LineItems(t, lines)| == |lines|
    ensures forall k :: 0 <= k < |lines| ==> LineItems(t, lines)[k] == PatchLexItem(t, lines[k])
    decreases |lines|
  {
    if lines != [] {
      LineItemsLength(t, lines[1..]);
    }
  }

  /** The start line is the number before any comma in the first range. */
  lemma {:induction false} StartOfRange(r: LineRange)
    requires r.first <= MaxInt64
    ensures var s := RangeText(r); Atoi(s[..IndexOf(s, ',')]) == Ok(r.first)
  {
    var d := Decimal(r.first);
    var s := RangeText(r);
    var i := IndexOf(s, ',');
    assert s[..|d|] == d;
    assert ',' !in d;
    if r.last.Some? {
      assert s[|d|] == ',';
    }
    assert i == |d|;
    AtoiOfDecimal(r.first);
  }

  function HeaderItems(h: Hunk): seq<PatchLexItem>
  {
    [PatchLexItem(PatchRange, RangeText(h.from)), PatchLexItem(PatchMode, [h.mode]),
     PatchLexItem(PatchRange, RangeText(h.to))]
  }

  /** The header of a hunk starts its action. */
  lemma {:induction false} HunkHeader(toks: seq<PatchLexItem>, i: nat, h: Hunk, done: Patch)
    requires Terminated(toks) && i + 3 <= |toks| && toks[i..i + 3] == HeaderItems(h)
    requires IsModeChar(h.mode) && h.from.first <= MaxInt64
    ensures i + 3 < |toks|
    ensures ParseHeader(toks, i, done) == ParseBody(toks, i + 3, done, ModeAction([h.mode], h.from.first))
  {
    assert toks[i] == toks[i..i + 3][0];
    assert toks[i + 1] == toks[i..i + 3][1];
    assert toks[i + 2] == toks[i..i + 3][2];
    NotFinalHasNext(toks, i + 2);
    StartOfRange(h.from);
    var a := ModeAction([h.mode], h.from.first);
    assert ParseEndRange(toks, i + 2, done, a) == ParseBody(toks, i + 3, done, a);
    assert IsMode([h.mode]);
    assert ParseMode(toks, i + 1, done, h.from.first) == ParseEndRange(toks, i + 2, done, a);
    assert StartLineOf(toks[i]) == Ok(h.from.first);
  }

  /** The lines of a hunk fill its action, up to the next header or EOF. */
  lemma {:induction false} HunkBody(toks: seq<PatchLexItem>, j: nat, m: nat, n: nat, h: Hunk, done: Patch)
    requires Terminated(toks) && Consistent(h)
    requires j <= m <= n < |toks|
    requires toks[j..m] == LineItems(PatchDeletion, h.deleted)
    requires toks[m..n] == LineItems(PatchAddition, h.added)
    requires toks[n].t == PatchRange || toks[n].t == PatchEOF
    ensures ParseBody(toks, j, done, ModeAction([h.mode], h.from.first)) == ParseStart(toks, n, done, Some(ActionOf(h)))
  {
    LineItemsLength(PatchDeletion, h.deleted);
    LineItemsLength(PatchAddition, h.added);
    var a := ModeAction([h.mode], h.from.first);
    if h.mode == 'a' {
      AdditionsRun(toks, j, h.added, done, a);
      assert a.(additionLines := a.additionLines + h.added) == ActionOf(h);
    } else {
      DeletingHunkBody(toks, j, m, n, h, done);
    }
  }

  /** HunkBody for a deletion or a change. */
  lemma {:induction false} DeletingHunkBody(toks: seq<PatchLexItem>, j: nat, m: nat, n: nat, h: Hunk, done: Patch)
    requires Terminated(toks) && Consistent(h) && h.mode != 'a'
    requires j <= m <= n < |toks|
    requires m == j + |h.deleted| && n == m + |h.added|
    requires toks[j..m] == LineItems(PatchDeletion, h.deleted)
    requires toks[m..n] == LineItems(PatchAddition, h.added)
    requires toks[n].t == PatchRange || toks[n].t == PatchEOF
    ensures ParseDeletions(toks, j, done, ModeAction([h.mode], h.from.first)) == ParseStart(toks, n, done, Some(ActionOf(h)))
  {
    var a := ModeAction([h.mode], h.from.first);
    LineItemsLength(PatchAddition, h.added);
    assert toks[m].t != PatchDeletion by {
      if h.added != [] {
        assert toks[m] == toks[m..n][0];
      }
    }
    DeletionsRun(toks, j, h.deleted, done, a);
    DeletionsEnd(toks, m, n, h, done, a.(deletionLines := a.deletionLines + h.deleted));
  }

  /** After its deletion lines, a change reads its addition lines. */
  lemma {:induction false} DeletionsEnd(toks: seq<PatchLexItem>, m: nat, n: nat, h: Hunk, done: Patch, b: PatchAction)
    requires Terminated(toks) && Consistent(h) && h.mode != 'a'
    requires b == ModeAction([h.mode], h.from.first).(deletionLines := h.deleted)
    requires m <= n < |toks| && n == m + |h.added|
    requires toks[m..n] == LineItems(PatchAddition, h.added)
    requires toks[m].t != PatchDeletion
    requires toks[n].t == PatchRange || toks[n].t == PatchEOF
    ensures ParseDeletions(toks, m, done, b) == ParseStart(toks, n, done, Some(ActionOf(h)))
  {
    if h.mode == 'c' && h.added != [] {
      assert toks[m] == toks[m..n][0];
      LineItemsLength(PatchAddition, h.added);
      AdditionsRun(toks, m, h.added, done, b);
      assert b.(additionLines := b.additionLines + h.added) == ActionOf(h);
    } else {
      assert h.added == [];
      assert b == ActionOf(h);
    }
  }

  /** Where the header, the deleted and the added lines of a hunk lie in a
      token sequence that goes on with the hunk's tokens. */
  lemma {:induction false} HunkSlices(toks: seq<PatchLexItem>, i: nat, h: Hunk, rest: seq<PatchLexItem>)
      returns (j: nat, m: nat, n: nat)
    requires i <= |toks| && toks[i..] == HunkItems(h) + rest
    ensures j == i + 3 && j <= m <= n <= |toks|
    ensures toks[i..j] == HeaderItems(h)
    ensures toks[j..m] == LineItems(PatchDeletion, h.deleted)
    ensures toks[m..n] == LineItems(PatchAddition, h.added)
    ensures toks[n..] == rest
  {
    var hd, del, add := HeaderItems(h), LineItems(PatchDeletion, h.deleted), LineItems(PatchAddition, h.added);
    assert HunkItems(h) == hd + (del + add);
    AppendAssoc(hd, del + add, rest);
    AppendAssoc(del, add, rest);
    assert toks[i..] == hd + (del + (add + rest));
    j := i + |hd|;
    SplitAt(toks, i, hd, del + (add + rest));
    m := j + |del|;
    SplitAt(toks, j, del, add + rest);
    n := m + |add|;
    SplitAt(toks, m, add, rest);
  }

  /** After the tokens of a hunk comes the next header or EOF. */
  lemma {:induction false} NextAfterHunk(hs: seq<Hunk>)
    ensures var rest := ItemsOf(hs) + [PatchLexItem(PatchEOF, "")];
      rest[0].t == PatchRange || rest[0].t == PatchEOF
  {
    if hs != [] {
      assert (ItemsOf(hs) + [PatchLexItem(PatchEOF, "")])[0] == HunkItems(hs[0])[0];
    }
  }

  /** The tokens of the hunks, then a final EOF, parse to their actions after
      the pending one. */
  lemma {:induction false} ParseHunks(toks: seq<PatchLexItem>, i: nat, hs: seq<Hunk>, done: Patch, cur: Option<PatchAction>)
    requires forall k :: 0 <= k < |hs| ==> Consistent(hs[k])
    requires Terminated(toks) && i < |toks|
    requires toks[i..] == ItemsOf(hs) + [PatchLexItem(PatchEOF, "")]
    ensures ParseStart(toks, i, done, cur) == Ok(Emitted(done, cur) + ActionsOf(hs))
    decreases |hs|
  {
    if hs == [] {
      assert toks[i] == toks[i..][0] == PatchLexItem(PatchEOF, "");
      assert Emitted(done, cur) + ActionsOf(hs) == Emitted(done, cur);
    } else {
      var h := hs[0];
      var rest := ItemsOf(hs[1..]) + [PatchLexItem(PatchEOF, "")];
      assert toks[i..] == HunkItems(h) + rest;
      var j, m, n := HunkSlices(toks, i, h, rest);
      NextAfterHunk(hs[1..]);
      assert toks[n] == toks[n..][0];
      assert toks[i] == toks[i..j][0];
      var before := Emitted(done, cur);
      HunkHeader(toks, i, h, before);
      HunkBody(toks, j, m, n, h, before);
      forall k | 0 <= k < |hs[1..]| ensures Consistent(hs[1..][k]) {
        assert hs[1..][k] == hs[k + 1];
      }
      ParseHunks(toks, n, hs[1..], before, Some(ActionOf(h)));
      assert ParseStart(toks, i, done, cur) == ParseHeader(toks, i, before);
      assert ActionsOf(hs) == [ActionOf(h)] + ActionsOf(hs[1..]);
      AppendAssoc(before, [ActionOf(h)], ActionsOf(hs[1..]));
    }
  }

  /** Hunks in the form the diff utility writes parse back to the actions
      they stand for. */
  lemma {:induction false} ParseRender(hs: seq<Hunk>)
    requires forall k :: 0 <= k < |hs| ==> Consistent(hs[k])
    ensures ParsePatchText(Render(hs)) == Ok(ActionsOf(hs))
  {
    forall k | 0 <= k < |hs| ensures WellFormedHunk(hs[k]) { }
    var toks := Tokens(Render(hs));
    LexRender(hs);
    TokensTerminated(Render(hs));
    assert toks[0..] == toks;
    ParseHunks(toks, 0, hs, [], None);
    assert Emitted([], None) + ActionsOf(hs) == ActionsOf(hs);
    assert ParseTokens(toks) == Ok(ActionsOf(hs));
    assert ParsePatchText(Render(hs)) == ParseTokens(toks);
  }

  // ---------------------------------------------------------------------
  // What the parse rejects
  // ---------------------------------------------------------------------

  /** A parse succeeds only on a token sequence that ends in EOF, so never
      after a lexer error. */
  lemma {:induction false} StartOkAtEOF(toks: seq<PatchLexItem>, i: nat, done: Patch, cur: Option<PatchAction>)
    requires Terminated(toks) && i < |toks|
    requires ParseStart(toks, i, done, cur).Ok?
    ensures EndsInEOF(toks)
    decreases |toks| - i, 1
  {
    if toks[i].t == PatchRange {
      HeaderOkAtEOF(toks, i, Emitted(done, cur));
    }
  }

  lemma {:induction false} HeaderOkAtEOF(toks: seq<PatchLexItem>, i: nat, done: Patch)
    requires Terminated(toks) && i < |toks|
    requires ParseHeader(toks, i, done).Ok?
    ensures EndsInEOF(toks)
    decreases |toks| - i, 0
  {
    ModeOkAtEOF(toks, i + 1, done, StartLineOf(toks[i]).value);
  }

  lemma {:induction false} ModeOkAtEOF(toks: seq<PatchLexItem>, i: nat, done: Patch, start: int)
    requires Terminated(toks) && i < |toks|
    requires ParseMode(toks, i, done, start).Ok?
    ensures EndsInEOF(toks)
    decreases |toks| - i, 0
  {
    EndRangeOkAtEOF(toks, i + 1, done, ModeAction(toks[i].v, start));
  }

  lemma {:induction false} EndRangeOkAtEOF(toks: seq<PatchLexItem>, i: nat, done: Patch, cur: PatchAction)
    requires Terminated(toks) && i < |toks|
    requires ParseEndRange(toks, i, done, cur).Ok?
    ensures EndsInEOF(toks)
    decreases |toks| - i, 0
  {
    if cur.mode == Addition {
      AdditionsOkAtEOF(toks, i + 1, done, cur);
    } else {
      DeletionsOkAtEOF(toks, i + 1, done, cur);
    }
  }

  lemma {:induction false} AdditionsOkAtEOF(toks: seq<PatchLexItem>, i: nat, done: Patch, cur: PatchAction)
    requires Terminated(toks) && i < |toks|
    requires ParseAdditions(toks, i, done, cur).Ok?
    ensures EndsInEOF(toks)
    decreases |toks| - i, 2
  {
    if toks[i].t == PatchAddition {
      AdditionsOkAtEOF(toks, i + 1, done, cur.(additionLines := cur.additionLines + [toks[i].v]));
    } else {
      StartOkAtEOF(toks, i, done, Some(cur));
    }
  }

  lemma {:induction false} DeletionsOkAtEOF(toks: seq<PatchLexItem>, i: nat, done: Patch, cur: PatchAction)
    requires Terminated(toks) && i < |toks|
    requires ParseDeletions(toks, i, done, cur).Ok?
    ensures EndsInEOF(toks)
    decreases |toks| - i, 3
  {
    if toks[i].t == PatchDeletion {
      DeletionsOkAtEOF(toks, i + 1, done, cur.(deletionLines := cur.deletionLines + [toks[i].v]));
    } else if cur.mode == Change && toks[i].t == PatchAddition {
      AdditionsOkAtEOF(toks, i, done, cur);
    } else {
      StartOkAtEOF(toks, i, done, Some(cur));
    }
  }

  /** A diff that parses is empty or ends with a newline: a text cut off in
      the middle of a line is rejected. */
  lemma {:induction false} OkOnlyAfterNewline(data: string)
    requires ParsePatchText(data).Ok?
    ensures data == [] || data[|data| - 1] == '\n'
  {
    TokensTerminated(data);
    StartOkAtEOF(Tokens(data), 0, [], None);
    EOFOnlyAfterNewline(data);
  }

  /** An addition or deletion line before any header is an invalid item. */
  lemma {:induction false} HeadlessLine(t: PatchLexType, line: string, rest: string)
    requires t == PatchAddition || t == PatchDeletion
    requires '\n' !in line
    ensures ParsePatchText(Marker(t) + (" " + (line + ("\n" + rest))))
         == Err(InvalidItem(PatchLexItem(t, line)))
  {
    LexLine(t, line, rest);
  }

  /** A deletion hunk followed by addition lines is rejected at the first
      of them. */
  lemma {:induction false} AdditionAfterDeletion(h: Hunk, line: string, rest: seq<Hunk>)
    requires Consistent(h) && h.mode == 'd'
    requires '\n' !in line
    requires forall k :: 0 <= k < |rest| ==> WellFormedHunk(rest[k])
    ensures ParsePatchText(Render([h.(added := [line])] + rest)) == Err(InvalidItem(PatchLexItem(PatchAddition, line)))
  {
    var hs := [h.(added := [line])] + rest;
    forall k | 0 <= k < |hs| ensures WellFormedHunk(hs[k]) {
      if k > 0 { assert hs[k] == rest[k - 1]; }
    }
    LexRender(hs);
    TokensTerminated(Render(hs));
    var toks := Tokens(Render(hs));
    assert hs[1..] == rest;
    assert toks[0..] == HunkItems(hs[0]) + (ItemsOf(rest) + [PatchLexItem(PatchEOF, "")]);
    DeletionThenAddition(toks, h, line, ItemsOf(rest) + [PatchLexItem(PatchEOF, "")]);
  }

  lemma {:induction false} DeletionThenAddition(toks: seq<PatchLexItem>, h: Hunk, line: string, after: seq<PatchLexItem>)
    requires Consistent(h) && h.mode == 'd'
    requires Terminated(toks) && toks[0..] == HunkItems(h.(added := [line])) + after
    ensures ParseTokens(toks) == Err(InvalidItem(PatchLexItem(PatchAddition, line)))
  {
    var h2 := h.(added := [line]);
    var j, m, n := HunkSlices(toks, 0, h2, after);
    assert LineItems(PatchAddition, [line]) == [PatchLexItem(PatchAddition, line)] by {
      assert [line][1..] == [];
    }
    assert toks[m] == toks[m..n][0] == PatchLexItem(PatchAddition, line);
    DeletionHunkHead(toks, h2, m);
    StrayAddition(toks, m, [], ModeAction("d", h.from.first).(deletionLines := h.deleted));
  }

  /** The header and deletion lines of a deletion hunk at the start of the
      tokens leave the parse reading deletions after them. */
  lemma {:induction false} DeletionHunkHead(toks: seq<PatchLexItem>, h: Hunk, m: nat)
    requires h.mode == 'd' && h.from.first <= MaxInt64
    requires Terminated(toks) && 3 <= m < |toks| && toks[m].t != PatchDeletion
    requires toks[0..3] == HeaderItems(h) && toks[3..m] == LineItems(PatchDeletion, h.deleted)
    ensures ParseTokens(toks) == ParseDeletions(toks, m, [], ModeAction("d", h.from.first).(deletionLines := h.deleted))
  {
    assert toks[0] == toks[0..3][0];
    StartAtHeader(toks);
    HunkHeader(toks, 0, h, []);
    var a := ModeAction("d", h.from.first);
    assert ParseBody(toks, 3, [], a) == ParseDeletions(toks, 3, [], a);
    LineItemsLength(PatchDeletion, h.deleted);
    assert m == 3 + |h.deleted|;
    DeletionsRun(toks, 3, h.deleted, [], a);
    assert a.(deletionLines := a.deletionLines + h.deleted) == a.(deletionLines := h.deleted);
  }

  /** Tokens that begin with a range are parsed as a header. */
  lemma {:induction false} StartAtHeader(toks: seq<PatchLexItem>)
    requires Terminated(toks) && toks[0].t == PatchRange
    ensures ParseTokens(toks) == ParseHeader(toks, 0, [])
  {
    assert Emitted([], None) == [];
  }

  /** An addition line inside a deletion hunk is reported as an invalid item. */
  lemma {:induction false} StrayAddition(toks: seq<PatchLexItem>, i: nat, done: Patch, cur: PatchAction)
    requires Terminated(toks) && i < |toks| && toks[i].t == PatchAddition && cur.mode == Deletion
    ensures ParseDeletions(toks, i, done, cur) == Err(InvalidItem(toks[i]))
  {
    assert ParseDeletions(toks, i, done, cur) == ParseStart(toks, i, done, Some(cur));
  }

  // ---------------------------------------------------------------------
  // The parser
  // ---------------------------------------------------------------------

  datatype PatchParseState = AtStart | AtHeader | InAdditions | InDeletions | Done

  /** Orders the states for termination: a state that moves on without
      reading a token has a lower rank than the one before it. */
  function Rank(state: PatchParseState): nat
  {
    match state
    case InDeletions => 3
    case InAdditions => 2
    case AtStart => 1
    case _ => 0
  }

  /** patchParser, reading the token sequence the lexer sends over its
      channel. */
  class PatchParser {
    var patches: Patch
    var err: Option<string>
    /** Tokens put back by backup, the last one on top. */
    var lexBuff: seq<PatchLexItem>
    /** The tokens of the channel, and how many of them were received. */
    const toks: seq<PatchLexItem>
    var idx: nat
    /** The action being filled; None before the first header. */
    var nextPatch: Option<PatchAction>

    /** Only the token received last is ever put back. */
    ghost predicate Valid()
      reads this
    {
      && Terminated(toks)
      && idx <= |toks|
      && (lexBuff == [] || (idx > 0 && lexBuff == [toks[idx - 1]]))
    }

    /** The index of the token next() returns. */
    ghost function Cursor(): nat
      reads this
    {
      if lexBuff == [] then idx else if idx > 0 then idx - 1 else 0
    }

    /** The states that fill an action have one. */
    ghost predicate Ready(state: PatchParseState)
      reads this
    {
      Valid() && (state != Done ==> Cursor() < |toks| && err.None?)
      && ((state == InAdditions || state == InDeletions) ==> nextPatch.Some?)
    }

    /** The outcome of the parse still to come from state. */
    ghost function Pending(state: PatchParseState): Result<Patch, string>
      reads this
      requires Ready(state)
    {
      match state
      case AtStart => ParseStart(toks, Cursor(), patches, nextPatch)
      case AtHeader => ParseHeader(toks, Cursor(), patches)
      case InAdditions => ParseAdditions(toks, Cursor(), patches, nextPatch.value)
      case InDeletions => ParseDeletions(toks, Cursor(), patches, nextPatch.value)
      case Done => if err.Some? then Err(err.value) else Ok(patches)
    }

    constructor (toks: seq<PatchLexItem>)
      requires Terminated(toks)
      ensures Ready(AtStart) && this.toks == toks && Cursor() == 0
      ensures patches == [] && err == None && nextPatch == None
    {
      this.toks := toks;
      patches, err, lexBuff, idx, nextPatch := [], None, [], 0, None;
    }

    /** The token put back last, or else the next one from the channel. */
    method Next() returns (item: PatchLexItem)
      requires Valid() && Cursor() < |toks|
      modifies this`lexBuff, this`idx
      ensures Valid() && lexBuff == [] && idx == old(Cursor()) + 1
      ensures item == toks[old(Cursor())]
    {
      if |lexBuff| > 0 {
        item := lexBuff[|lexBuff| - 1];
        lexBuff := lexBuff[..|lexBuff| - 1];
      } else {
        item := toks[idx];
        idx := idx + 1;
      }
    }

    /** Puts the token read last back. */
    method Backup(item: PatchLexItem)
      requires Valid() && lexBuff == [] && idx > 0 && item == toks[idx - 1]
      modifies this`lexBuff
      ensures Valid() && lexBuff == old(lexBuff) + [item] && Cursor() == idx - 1
    {
      lexBuff := lexBuff + [item];
    }

    /** patchParser.nextType with a limit of one token. */
    method NextType(want: PatchLexType) returns (r: Result<string, string>)
      requires Valid() && Cursor() < |toks|
      modifies this`lexBuff, this`idx
      ensures Valid() && lexBuff == [] && idx == old(Cursor()) + 1
      ensures r == NextTypeOf(toks[old(Cursor())], want)
    {
      var item := Next();
      if item.t == want {
        r := Ok(item.v);
      } else if item.t == PatchEOF {
        r := Err(MsgEOF);
      } else if item.t == PatchError {
        r := Err(item.v);
      } else {
        r := Err("no item with type " + Decimal(TypeCode(want)) + " found in 1 messages");
      }
    }

    /** The first token of a header, as the start line. */
    method ReadStartLine() returns (r: Result<int, string>)
      requires Valid() && Cursor() < |toks|
      modifies this`lexBuff, this`idx
      ensures Valid() && lexBuff == [] && idx == old(Cursor()) + 1
      ensures r == StartLineOf(toks[old(Cursor())])
    {
      var startRange := NextType(PatchRange);
      if startRange.Err? {
        return Err(startRange.error);
      }
      var start := Atoi(startRange.value[..IndexOf(startRange.value, ',')]);
      if start.Err? {
        return Err("cannot parse start range, " + start.error);
      }
      r := Ok(start.value);
    }

    /** The second token of a header, as a mode. */
    method ReadMode() returns (r: Result<string, string>)
      requires Valid() && Cursor() < |toks|
      modifies this`lexBuff, this`idx
      ensures Valid() && lexBuff == [] && idx == old(Cursor()) + 1
      ensures r == ModeOf(toks[old(Cursor())])
    {
      var mode := NextType(PatchMode);
      if mode.Err? {
        return mode;
      }
      if !IsMode(mode.value) {
        return Err("invalid mode value " + mode.value);
      }
      r := mode;
    }

    /** Stores the error and drops the actions parsed so far. */
    method Errorf(msg: string) returns (next: PatchParseState)
      modifies this`patches, this`err
      ensures patches == [] && err == Some(msg) && next == Done
    {
      patches := [];
      err := Some(msg);
      next := Done;
    }

    /** Adds the pending action, if any, to the patch. */
    method Emit(succ: PatchParseState) returns (next: PatchParseState)
      modifies this`patches
      ensures patches == Emitted(old(patches), nextPatch) && next == succ
    {
      if nextPatch.Some? {
        patches := patches + [nextPatch.value];
      }
      next := succ;
    }

    /** patchParseStart. */
    method ParseStartStep() returns (next: PatchParseState)
      requires Ready(AtStart) && (err.Some? ==> patches == [])
      modifies this`lexBuff, this`idx, this`patches, this`err
      ensures Ready(next) && (err.Some? ==> patches == [])
      ensures old(Cursor()) <= Cursor() && (old(Cursor()) < Cursor() || Rank(next) < Rank(AtStart))
      ensures Pending(next) == old(Pending(AtStart))
    {
      var item := Next();
      if item.t == PatchEOF {
        next := Emit(Done);
      } else if item.t == PatchError {
        next := Errorf(item.v);
      } else if item.t == PatchRange {
        Backup(item);
        next := Emit(AtHeader);
      } else {
        next := Errorf(InvalidItem(item));
      }
    }

    /** patchParseHeader. */
    method ParseHeaderStep() returns (next: PatchParseState)
      requires Ready(AtHeader) && (err.Some? ==> patches == [])
      modifies this`lexBuff, this`idx, this`patches, this`err, this`nextPatch
      ensures Ready(next) && (err.Some? ==> patches == [])
      ensures old(Cursor()) < Cursor()
      ensures Pending(next) == old(Pending(AtHeader))
    {
      ghost var i := Cursor();
      ghost var goal := ParseHeader(toks, i, patches);
      var start := ReadStartLine();
      if start.Err? {
        assert goal == Err(start.error);
        next := Errorf(start.error);
        return;
      }
      NotFinalHasNext(toks, i);
      assert goal == ParseMode(toks, i + 1, patches, start.value);
      next := ParseModeStep(start.value);
    }

    /** The mode and the second range of a header; the action they start. */
    method ParseModeStep(start: int) returns (next: PatchParseState)
      requires Valid() && Cursor() < |toks| && err.None?
      modifies this`lexBuff, this`idx, this`patches, this`err, this`nextPatch
      ensures Ready(next) && (err.Some? ==> patches == [])
      ensures old(Cursor()) < Cursor()
      ensures Pending(next) == old(ParseMode(toks, Cursor(), patches, start))
    {
      ghost var i := Cursor();
      ghost var goal := ParseMode(toks, i, patches, start);
      var mode := ReadMode();
      if mode.Err? {
        assert goal == Err(mode.error);
        next := Errorf(mode.error);
        return;
      }
      NotFinalHasNext(toks, i);
      assert goal == ParseEndRange(toks, i + 1, patches, ModeAction(mode.value, start));
      var endRange := NextType(PatchRange);
      if endRange.Err? {
        assert goal == Err(endRange.error);
        next := Errorf(endRange.error);
        return;
      }
      NotFinalHasNext(toks, i + 1);
      var action := ModeAction(mode.value, start);
      assert goal == ParseBody(toks, i + 2, patches, action);
      nextPatch := Some(action);
      assert Cursor() == i + 2;
      if mode.value == "a" {
        assert goal == ParseAdditions(toks, i + 2, patches, action);
        next := InAdditions;
      } else {
        assert goal == ParseDeletions(toks, i + 2, patches, action);
        next := InDeletions;
      }
    }

    /** patchParseAddition. */
    method ParseAdditionStep() returns (next: PatchParseState)
      requires Ready(InAdditions)
      modifies this`lexBuff, this`idx, this`nextPatch
      ensures next == AtStart && Ready(next) && old(Cursor()) <= Cursor()
      ensures ParseStart(toks, Cursor(), patches, nextPatch) == old(ParseAdditions(toks, Cursor(), patches, nextPatch.value))
    {
      var item := ReadAdditions();
      AdditionsEnd(toks, idx - 1, patches, nextPatch.value);
      Backup(item);
      next := AtStart;
    }

    /** The loop of patchParseAddition: reads tokens until one is not an
        addition line; each addition line joins the action. */
    method ReadAdditions() returns (item: PatchLexItem)
      requires Valid() && Cursor() < |toks| && nextPatch.Some?
      modifies this`lexBuff, this`idx, this`nextPatch
      ensures Valid() && lexBuff == [] && old(Cursor()) < idx && item == toks[idx - 1]
      ensures item.t != PatchAddition && nextPatch.Some?
      ensures ParseAdditions(toks, idx - 1, patches, nextPatch.value)
           == old(ParseAdditions(toks, Cursor(), patches, nextPatch.value))
    {
      item := Next();
      while item.t == PatchAddition
        invariant Valid() && lexBuff == [] && old(Cursor()) < idx && item == toks[idx - 1]
        invariant nextPatch.Some?
        invariant ParseAdditions(toks, idx - 1, patches, nextPatch.value)
               == old(ParseAdditions(toks, Cursor(), patches, nextPatch.value))
        decreases |toks| - idx
      {
        NotFinalHasNext(toks, idx - 1);
        nextPatch := Some(nextPatch.value.(additionLines := nextPatch.value.additionLines + [item.v]));
        item := Next();
      }
    }

    /** patchParseDeletion. */
    method ParseDeletionStep() returns (next: PatchParseState)
      requires Ready(InDeletions) && (err.Some? ==> patches == [])
      modifies this`lexBuff, this`idx, this`nextPatch
      ensures Ready(next) && (err.Some? ==> patches == [])
      ensures old(Cursor()) <= Cursor() && (old(Cursor()) < Cursor() || Rank(next) < Rank(InDeletions))
      ensures Pending(next) == old(Pending(InDeletions))
    {
      ghost var want := ParseDeletions(toks, Cursor(), patches, nextPatch.value);
      assert want == Pending(InDeletions);
      var item := ReadDeletions();
      var cur := nextPatch.value;
      assert want == ParseDeletions(toks, idx - 1, patches, cur);
      Backup(item);
      if cur.mode == Change && item.t == PatchAddition {
        next := InAdditions;
        assert Rank(next) < Rank(InDeletions);
        assert want == ParseAdditions(toks, Cursor(), patches, cur) == Pending(next);
      } else {
        next := AtStart;
        assert Rank(next) < Rank(InDeletions);
        assert want == ParseStart(toks, Cursor(), patches, nextPatch) == Pending(next);
      }
    }

    /** The loop of patchParseDeletion: reads tokens until one is not a
        deletion line; each deletion line joins the action. */
    method ReadDeletions() returns (item: PatchLexItem)
      requires Valid() && Cursor() < |toks| && nextPatch.Some?
      modifies this`lexBuff, this`idx, this`nextPatch
      ensures Valid() && lexBuff == [] && old(Cursor()) < idx && item == toks[idx - 1]
      ensures item.t != PatchDeletion && nextPatch.Some? && nextPatch.value.mode == old(nextPatch.value.mode)
      ensures ParseDeletions(toks, idx - 1, patches, nextPatch.value)
           == old(ParseDeletions(toks, Cursor(), patches, nextPatch.value))
    {
      item := Next();
      while item.t == PatchDeletion
        invariant Valid() && lexBuff == [] && old(Cursor()) < idx && item == toks[idx - 1]
        invariant nextPatch.Some? && nextPatch.value.mode == old(nextPatch.value.mode)
        invariant ParseDeletions(toks, idx - 1, patches, nextPatch.value)
               == old(ParseDeletions(toks, Cursor(), patches, nextPatch.value))
        decreases |toks| - idx
      {
        NotFinalHasNext(toks, idx - 1);
        nextPatch := Some(nextPatch.value.(deletionLines := nextPatch.value.deletionLines + [item.v]));
        item := Next();
      }
    }

    /** Runs the states from patchParseStart until one stops. */
    method Run()
      requires Ready(AtStart) && patches == [] && err == None && nextPatch == None && Cursor() == 0
      modifies this`lexBuff, this`idx, this`patches, this`err, this`nextPatch
      ensures (if err.Some? then Err(err.value) else Ok(patches)) == ParseTokens(toks)
      ensures err.Some? ==> patches == []
    {
      var state := AtStart;
      while state != Done
        invariant Ready(state) && (err.Some? ==> patches == [])
        invariant Pending(state) == ParseTokens(toks)
        decreases |toks| - Cursor(), Rank(state)
      {
        match state {
          case AtStart => state := ParseStartStep();
          case AtHeader => state := ParseHeaderStep();
          case InAdditions => state := ParseAdditionStep();
          case InDeletions => state := ParseDeletionStep();
        }
      }
    }
  }

  /** parsePatch: lexes data, then parses its tokens; on an error the patch
      is empty. */
  method ParsePatch(data: string) returns (patch: Patch, err: Option<string>)
    ensures err.None? ==> ParsePatchText(data) == Ok(patch)
    ensures err.Some? ==> ParsePatchText(data) == Err(err.value) && patch == []
  {
    var items := LexPatch(data);
    var parser := new PatchParser(items);
    parser.Run();
    patch, err := parser.patches, parser.err;
  }
}
