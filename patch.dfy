/// Applying a patch in the "normal" output format of the POSIX diff utility
/// to a text (patch.go).
///
/// ApplyFrom, CopyStage and AddStage give what Patch.Apply writes, stage by
/// stage of its loop: a deletion or change that starts at the current line
/// first, then one input line copied, then an addition that starts at that
/// line. Apply is the loop itself, over a line scanner and a line writer, and
/// is proved to write exactly what ApplyFrom says. Edit is the usual reading
/// of such a patch (add after line s, delete or change lines from s on), and
/// ApplyIsEdit proves that Apply performs it on every input the patch fits.
module Patches {
  import opened Base

  /** The change a patch action makes. */
  datatype PatchType = Addition | Deletion | Change

  /** One hunk of a patch. */
  datatype PatchAction = PatchAction(
    mode: PatchType,
    startLine: int,
    additionLines: seq<string>,
    deletionLines: seq<string>)

  type Patch = seq<PatchAction>

  /** PmWiki sometimes trims the white space of the lines stored in a diff,
      so an input line matches the expected one as it is or trimmed. */
  predicate LineMatches(input: string, expected: string)
  {
    input == expected || input == TrimSpace(expected)
  }

  /** The error of a deleted line that does not match what the patch expects. */
  function MismatchMessage(consumed: nat, expected: string, input: string): string
  {
    "patch:" + Decimal(consumed) + " expected \"" + expected + "\", got \"" + input + "\""
  }

  // ---------------------------------------------------------------------
  // What one action and the whole patch do to a sequence of lines
  // ---------------------------------------------------------------------

  /** How many of the expected lines the input matches in a row from pos on:
      it stops at the first mismatch, at the end of the expected lines or at
      the end of the input. */
  function MatchedCount(expected: seq<string>, input: seq<string>, pos: nat): (k: nat)
    requires pos <= |input|
    ensures k <= |expected| && pos + k <= |input|
    decreases |expected|
  {
    if expected == [] || pos == |input| then 0
    else if LineMatches(input[pos], expected[0]) then 1 + MatchedCount(expected[1..], input, pos + 1)
    else 0
  }

  /** The lines MatchedCount counts all match, and the line after them, if
      both sides have one, does not. */
  lemma {:induction false} MatchedCountSpec(expected: seq<string>, input: seq<string>, pos: nat)
    requires pos <= |input|
    ensures var k := MatchedCount(expected, input, pos);
      && (forall j :: 0 <= j < k ==> LineMatches(input[pos + j], expected[j]))
      && (k < |expected| && pos + k < |input| ==> !LineMatches(input[pos + k], expected[k]))
    decreases |expected|
  {
    if expected != [] && pos < |input| && LineMatches(input[pos], expected[0]) {
      MatchedCountSpec(expected[1..], input, pos + 1);
      var k := MatchedCount(expected, input, pos);
      forall j | 0 <= j < k ensures LineMatches(input[pos + j], expected[j]) {
        if j > 0 {
          assert expected[j] == expected[1..][j - 1];
          assert input[pos + j] == input[pos + 1 + (j - 1)];
        }
      }
    }
  }

  /** All expected lines match: the whole deletion is consumed. */
  lemma {:induction false} MatchedAll(expected: seq<string>, input: seq<string>, pos: nat)
    requires pos + |expected| <= |input|
    requires forall j :: 0 <= j < |expected| ==> LineMatches(input[pos + j], expected[j])
    ensures MatchedCount(expected, input, pos) == |expected|
    decreases |expected|
  {
    if expected != [] {
      assert LineMatches(input[pos + 0], expected[0]);
      forall j | 0 <= j < |expected[1..]| ensures LineMatches(input[pos + 1 + j], expected[1..][j]) {
        assert LineMatches(input[pos + (j + 1)], expected[j + 1]);
      }
      MatchedAll(expected[1..], input, pos + 1);
    }
  }

  /** MatchedCount is the only count with its properties. */
  lemma {:induction false} MatchedCountUnique(expected: seq<string>, input: seq<string>, pos: nat, c: nat)
    requires pos + c <= |input| && c <= |expected|
    requires forall j :: 0 <= j < c ==> LineMatches(input[pos + j], expected[j])
    requires c < |expected| && pos + c < |input| ==> !LineMatches(input[pos + c], expected[c])
    ensures MatchedCount(expected, input, pos) == c
    decreases c
  {
    if c > 0 {
      assert LineMatches(input[pos + 0], expected[0]);
      forall j | 0 <= j < c - 1 ensures LineMatches(input[pos + 1 + j], expected[1..][j]) {
        assert LineMatches(input[pos + (j + 1)], expected[j + 1]);
      }
      if c - 1 < |expected[1..]| && pos + 1 + (c - 1) < |input| {
        assert expected[1..][c - 1] == expected[c];
      }
      MatchedCountUnique(expected[1..], input, pos + 1, c - 1);
    }
  }

  /** The input lines an action consumed and the lines it wrote. */
  datatype Applied = Applied(consumed: nat, written: seq<string>)

  /** patchAction.apply on the input lines from pos on. A deletion or change
      consumes its deletion lines, each of which must match, and may stop
      early at the end of the input; an addition or change then writes its
      addition lines. */
  function ApplyAction(a: PatchAction, input: seq<string>, pos: nat): (r: Result<Applied, string>)
    requires pos <= |input|
    ensures r.Ok? ==> pos + r.value.consumed <= |input|
    ensures r.Ok? ==> r.value.consumed <= |a.deletionLines|
    ensures r.Ok? && a.mode != Addition ==>
              r.value.consumed == |a.deletionLines| || pos + r.value.consumed == |input|
    ensures r.Ok? ==> r.value.written == AddedLines(a)
    ensures r.Err? ==> a.mode != Addition
  {
    if a.mode == Addition then Ok(Applied(0, a.additionLines))
    else
      var k := MatchedCount(a.deletionLines, input, pos);
      if k < |a.deletionLines| && pos + k < |input| then
        Err(MismatchMessage(k, a.deletionLines[k], input[pos + k]))
      else
        Ok(Applied(k, if a.mode == Change then a.additionLines else []))
  }

  /** The lines written and the error, if any, that stopped the walk. */
  datatype Outcome = Outcome(written: seq<string>, err: Option<string>)

  function Prefix(w: seq<string>, o: Outcome): Outcome
  {
    Outcome(w + o.written, o.err)
  }

  /** The top of the loop of Patch.Apply with action patchNo next, the line
      counter at line and pos input lines read: a deletion or change that
      starts at line is applied first. */
  function ApplyFrom(p: Patch, input: seq<string>, patchNo: nat, line: nat, pos: nat): Outcome
    requires pos <= |input|
    decreases |input| - pos, if line == 0 then 5 else 1
  {
    if patchNo < |p| && p[patchNo].startLine == line && p[patchNo].mode != Addition then
      match ApplyAction(p[patchNo], input, pos)
      case Err(e) => Outcome([], Some(e))
      case Ok(a) =>
        Prefix(a.written, CopyStage(p, input, patchNo + 1, line + a.consumed, pos + a.consumed))
    else
      CopyStage(p, input, patchNo, line, pos)
  }

  /** Then one input line is copied, unless reading has not started (line 0);
      at the end of the input the walk ends without error. */
  function CopyStage(p: Patch, input: seq<string>, patchNo: nat, line: nat, pos: nat): Outcome
    requires pos <= |input|
    decreases |input| - pos, if line == 0 then 4 else 0
  {
    if line > 0 then
      if pos == |input| then Outcome([], None)
      else Prefix([input[pos]], AddStage(p, input, patchNo, line, pos + 1))
    else
      AddStage(p, input, patchNo, line, pos)
  }

  /** Then an addition that starts at line writes its lines, and the line
      counter moves on. */
  function AddStage(p: Patch, input: seq<string>, patchNo: nat, line: nat, pos: nat): Outcome
    requires pos <= |input|
    decreases |input| - pos, if line == 0 then 3 else 2
  {
    if patchNo < |p| && p[patchNo].startLine == line && p[patchNo].mode == Addition then
      Prefix(p[patchNo].additionLines, ApplyFrom(p, input, patchNo + 1, line + 1, pos))
    else
      ApplyFrom(p, input, patchNo, line + 1, pos)
  }

  /** Patch.Apply on a sequence of input lines. */
  function ApplyLines(p: Patch, input: seq<string>): Outcome
  {
    ApplyFrom(p, input, 0, 0, 0)
  }

  // ---------------------------------------------------------------------
  // The reading of a normal-format diff
  // ---------------------------------------------------------------------

  /** input[a..b], and nothing where the bounds do not hold. */
  function Lines(input: seq<string>, a: int, b: int): seq<string>
  {
    if 0 <= a <= b <= |input| then input[a..b] else []
  }

  /** The input lines an action keeps before its own: up to line s for an
      addition at s, up to line s - 1 for a deletion or change at s. */
  function KeptUpTo(a: PatchAction): int
  {
    if a.mode == Addition then a.startLine else a.startLine - 1
  }

  /** The input lines passed once the action is done. */
  function ResumeAt(a: PatchAction): int
  {
    if a.mode == Addition then a.startLine else a.startLine - 1 + |a.deletionLines|
  }

  /** The lines an action writes. */
  function AddedLines(a: PatchAction): seq<string>
  {
    if a.mode == Deletion then [] else a.additionLines
  }

  /** The edited text of a normal-format diff, with the first c input lines
      already passed: "s a" adds lines after input line s, "s d" deletes and
      "s c" replaces the lines from input line s on (lines count from 1), and
      the unchanged lines in between are kept. */
  function Edit(p: Patch, i: nat, input: seq<string>, c: int): seq<string>
    decreases |p| - i
  {
    if i >= |p| then Lines(input, c, |input|)
    else Lines(input, c, KeptUpTo(p[i])) + AddedLines(p[i]) + Edit(p, i + 1, input, ResumeAt(p[i]))
  }

  /** Whether an action fits input: an addition must start at minAdd or
      later, a deletion or change at minDel or later and its deleted lines
      must be there and match. */
  predicate ActionFits(a: PatchAction, input: seq<string>, minAdd: int, minDel: int)
  {
    if a.mode == Addition then minAdd <= a.startLine <= |input|
    else
      && 1 <= a.startLine && minDel <= a.startLine
      && a.startLine - 1 + |a.deletionLines| <= |input|
      && DeletedLinesMatch(a, input)
  }

  predicate DeletedLinesMatch(a: PatchAction, input: seq<string>)
    requires 1 <= a.startLine && a.startLine - 1 + |a.deletionLines| <= |input|
  {
    forall j :: 0 <= j < |a.deletionLines| ==> LineMatches(input[a.startLine - 1 + j], a.deletionLines[j])
  }

  /** Whether the actions from i on fit input, in order and inside the input;
      one after another they must leave room for the line the loop copies in
      between. */
  predicate Fits(p: Patch, i: nat, input: seq<string>, minAdd: int, minDel: int)
    decreases |p| - i
  {
    i >= |p| ||
    (&& ActionFits(p[i], input, minAdd, minDel)
     && Fits(p, i + 1, input, ResumeAt(p[i]) + 1, ResumeAt(p[i]) + if p[i].mode == Addition then 1 else 2))
  }

  /** Applying a patch that fits its input writes exactly the edited text and
      reports no error. */
  lemma {:induction false} ApplyIsEdit(p: Patch, input: seq<string>)
    requires Fits(p, 0, input, 0, 1)
    ensures ApplyLines(p, input) == Outcome(Edit(p, 0, input, 0), None)
  {
    assert ApplyLines(p, input) == CopyStage(p, input, 0, 0, 0) == AddStage(p, input, 0, 0, 0);
    if 0 < |p| && p[0].startLine == 0 && p[0].mode == Addition {
      TopOfLoop(p, 1, input, 1);
      assert AddStage(p, input, 0, 0, 0) == Prefix(p[0].additionLines, ApplyFrom(p, input, 1, 1, 0));
      assert Lines(input, 0, KeptUpTo(p[0])) == [];
    } else {
      RaiseBounds(p, 0, input, 0, 1, 1, 1);
      TopOfLoop(p, 0, input, 1);
    }
  }

  /** An empty patch copies every input line. */
  lemma {:induction false} EmptyPatchCopies(input: seq<string>)
    ensures ApplyLines([], input) == Outcome(input, None)
  {
    ApplyIsEdit([], input);
    assert Lines(input, 0, |input|) == input;
  }

  /** Fits only looks at the bounds through the next action. */
  lemma {:induction false} RaiseBounds(p: Patch, i: nat, input: seq<string>, minAdd: int, minDel: int, add2: int, del2: int)
    requires Fits(p, i, input, minAdd, minDel)
    requires i < |p| && p[i].mode == Addition ==> add2 <= p[i].startLine
    requires i < |p| && p[i].mode != Addition ==> del2 <= p[i].startLine
    ensures Fits(p, i, input, add2, del2)
  {
  }

  /** Past the end of the input nothing more fits. */
  lemma {:induction false} NothingFitsPastEnd(p: Patch, i: nat, input: seq<string>, minAdd: int, minDel: int)
    requires Fits(p, i, input, minAdd, minDel)
    requires minAdd > |input| && minDel > |input| + 1
    ensures i >= |p|
  {
  }

  lemma LinesCons(input: seq<string>, a: int, b: int)
    requires 0 <= a < b <= |input|
    ensures Lines(input, a, b) == [input[a]] + Lines(input, a + 1, b)
  {
    assert input[a..b] == [input[a]] + input[a + 1..b];
  }

  /** One step of Edit, with the concatenation grouped to the right. */
  lemma EditUnfold(p: Patch, i: nat, input: seq<string>, c: int)
    requires i < |p|
    ensures Edit(p, i, input, c) ==
      Lines(input, c, KeptUpTo(p[i])) + (AddedLines(p[i]) + Edit(p, i + 1, input, ResumeAt(p[i])))
  {
  }

  lemma ConsAssoc<T>(h: T, x: seq<T>, rest: seq<T>)
    ensures ([h] + x) + rest == [h] + (x + rest)
  {
  }

  /** A kept line before the next action is the first line of the edit. */
  lemma {:induction false} KeepLine(p: Patch, i: nat, input: seq<string>, c: nat)
    requires c < |input|
    requires i < |p| ==> c < KeptUpTo(p[i]) <= |input|
    ensures Edit(p, i, input, c) == [input[c]] + Edit(p, i, input, c + 1)
  {
    if i < |p| {
      EditUnfold(p, i, input, c);
      EditUnfold(p, i, input, c + 1);
      LinesCons(input, c, KeptUpTo(p[i]));
      ConsAssoc(input[c], Lines(input, c + 1, KeptUpTo(p[i])),
                AddedLines(p[i]) + Edit(p, i + 1, input, ResumeAt(p[i])));
    } else {
      LinesCons(input, c, |input|);
    }
  }

  /** A deletion or change that fits at the loop top with line L consumes
      its lines and writes its additions. */
  lemma {:induction false} DeletionRuns(p: Patch, i: nat, input: seq<string>, L: nat)
    requires 1 <= L <= |input| + 1
    requires i < |p| && p[i].startLine == L && p[i].mode != Addition
    requires Fits(p, i, input, L, L)
    ensures var n := |p[i].deletionLines|;
      && L - 1 + n <= |input|
      && ApplyFrom(p, input, i, L, L - 1) == Prefix(AddedLines(p[i]), CopyStage(p, input, i + 1, L + n, L - 1 + n))
  {
    FitsDeletion(p, i, input, L, L);
    DeletionApplies(p[i], input);
    ApplyFromFires(p, input, i, L, L - 1);
  }

  /** The edit of a deletion or change at line L, with L - 1 lines passed. */
  lemma {:induction false} DeletionEdits(p: Patch, i: nat, input: seq<string>, L: nat)
    requires 1 <= L <= |input| + 1
    requires i < |p| && p[i].startLine == L && p[i].mode != Addition
    requires Fits(p, i, input, L, L)
    ensures Edit(p, i, input, L - 1) == AddedLines(p[i]) + Edit(p, i + 1, input, L - 1 + |p[i].deletionLines|)
  {
    FitsDeletion(p, i, input, L, L);
    EditOfDeletion(p, i, input);
  }

  /** What Fits demands of a deletion or change. */
  lemma FitsDeletion(p: Patch, i: nat, input: seq<string>, minAdd: int, minDel: int)
    requires Fits(p, i, input, minAdd, minDel)
    requires i < |p| && p[i].mode != Addition
    ensures var s, n := p[i].startLine, |p[i].deletionLines|;
      && 1 <= s && minDel <= s && s - 1 + n <= |input|
      && DeletedLinesMatch(p[i], input)
      && Fits(p, i + 1, input, s + n, s + n + 1)
  {
  }

  /** One step of ApplyFrom where an action fires without error. */
  lemma ApplyFromFires(p: Patch, input: seq<string>, i: nat, line: nat, pos: nat)
    requires pos <= |input|
    requires i < |p| && p[i].startLine == line && p[i].mode != Addition
    requires ApplyAction(p[i], input, pos).Ok?
    ensures var r := ApplyAction(p[i], input, pos).value;
      ApplyFrom(p, input, i, line, pos) ==
        Prefix(r.written, CopyStage(p, input, i + 1, line + r.consumed, pos + r.consumed))
  {
  }

  /** A deletion or change at its own line keeps nothing before it. */
  lemma EditOfDeletion(p: Patch, i: nat, input: seq<string>)
    requires i < |p| && p[i].mode != Addition
    requires 0 <= KeptUpTo(p[i]) <= |input|
    ensures Edit(p, i, input, KeptUpTo(p[i])) == AddedLines(p[i]) + Edit(p, i + 1, input, ResumeAt(p[i]))
  {
    EditUnfold(p, i, input, KeptUpTo(p[i]));
    assert Lines(input, KeptUpTo(p[i]), KeptUpTo(p[i])) == [];
  }

  /** A deletion or change whose lines all match consumes them all. */
  lemma {:induction false} DeletionApplies(a: PatchAction, input: seq<string>)
    requires a.mode != Addition && 1 <= a.startLine && a.startLine - 1 + |a.deletionLines| <= |input|
    requires DeletedLinesMatch(a, input)
    ensures ApplyAction(a, input, a.startLine - 1) == Ok(Applied(|a.deletionLines|, AddedLines(a)))
  {
    MatchedAll(a.deletionLines, input, a.startLine - 1);
  }

  /** The loop at its top with line L, L - 1 input lines read and the
      actions from i on still to come. */
  lemma {:induction false} TopOfLoop(p: Patch, i: nat, input: seq<string>, L: nat)
    requires 1 <= L <= |input| + 1
    requires Fits(p, i, input, L, L)
    ensures ApplyFrom(p, input, i, L, L - 1) == Outcome(Edit(p, i, input, L - 1), None)
    decreases |input| + 1 - L, 2
  {
    if i < |p| && p[i].startLine == L && p[i].mode != Addition {
      FitsDeletion(p, i, input, L, L);
      DeletionRuns(p, i, input, L);
      DeletionEdits(p, i, input, L);
      CopyFromFits(p, i + 1, input, L + |p[i].deletionLines|);
    } else {
      assert ApplyFrom(p, input, i, L, L - 1) == CopyStage(p, input, i, L, L - 1);
      RaiseBounds(p, i, input, L, L, L, L + 1);
      CopyFromFits(p, i, input, L);
    }
  }

  /** The loop after its deletion stage with line M and M - 1 input lines
      read. */
  lemma {:induction false} CopyFromFits(p: Patch, i: nat, input: seq<string>, M: nat)
    requires 1 <= M <= |input| + 1
    requires Fits(p, i, input, M, M + 1)
    ensures CopyStage(p, input, i, M, M - 1) == Outcome(Edit(p, i, input, M - 1), None)
    decreases |input| + 1 - M, 1
  {
    if M - 1 == |input| {
      NothingFitsPastEnd(p, i, input, M, M + 1);
      assert Lines(input, |input|, |input|) == [];
    } else if i < |p| && p[i].startLine == M && p[i].mode == Addition {
      CopyThenAdd(p, i, input, M);
    } else {
      CopyOnly(p, i, input, M);
    }
  }

  /** Line M - 1 is copied, then the addition at line M is written. */
  lemma {:induction false} CopyThenAdd(p: Patch, i: nat, input: seq<string>, M: nat)
    requires 1 <= M <= |input|
    requires Fits(p, i, input, M, M + 1)
    requires i < |p| && p[i].startLine == M && p[i].mode == Addition
    ensures CopyStage(p, input, i, M, M - 1) == Outcome(Edit(p, i, input, M - 1), None)
    decreases |input| + 1 - M, 0
  {
    var adds, rest := p[i].additionLines, Edit(p, i + 1, input, M);
    assert CopyStage(p, input, i, M, M - 1) == Prefix([input[M - 1]], AddStage(p, input, i, M, M));
    TopOfLoop(p, i + 1, input, M + 1);
    assert AddStage(p, input, i, M, M) == Prefix(adds, ApplyFrom(p, input, i + 1, M + 1, M));
    assert CopyStage(p, input, i, M, M - 1) == Outcome([input[M - 1]] + (adds + rest), None);
    assert Lines(input, M - 1, M) == [input[M - 1]];
    EditUnfold(p, i, input, M - 1);
    assert Edit(p, i, input, M - 1) == [input[M - 1]] + (adds + rest);
  }

  /** Line M - 1 is copied and no addition starts at line M. */
  lemma {:induction false} CopyOnly(p: Patch, i: nat, input: seq<string>, M: nat)
    requires 1 <= M <= |input|
    requires Fits(p, i, input, M, M + 1)
    requires !(i < |p| && p[i].startLine == M && p[i].mode == Addition)
    ensures CopyStage(p, input, i, M, M - 1) == Outcome(Edit(p, i, input, M - 1), None)
    decreases |input| + 1 - M, 0
  {
    assert CopyStage(p, input, i, M, M - 1) == Prefix([input[M - 1]], AddStage(p, input, i, M, M));
    assert AddStage(p, input, i, M, M) == ApplyFrom(p, input, i, M + 1, M);
    RaiseBounds(p, i, input, M, M + 1, M + 1, M + 1);
    TopOfLoop(p, i, input, M + 1);
    KeepLine(p, i, input, M - 1);
  }

  /** Once the input is used up, the actions not reached yet are dropped and
      the walk ends without error. */
  lemma {:induction false} LaterActionsDropped(p: Patch, input: seq<string>, patchNo: nat, line: nat)
    requires line > 0
    requires !(patchNo < |p| && p[patchNo].startLine == line && p[patchNo].mode != Addition)
    ensures ApplyFrom(p, input, patchNo, line, |input|) == Outcome([], None)
  {
  }

  // ---------------------------------------------------------------------
  // Text in, text out
  // ---------------------------------------------------------------------

  /** Patch.Apply on a text: the text is read line by line and every line
      written, copied or added, is followed by "\n". */
  function ApplyText(p: Patch, text: string): (r: Result<string, string>)
  {
    var o := ApplyLines(p, SplitLines(text));
    if o.err.Some? then Err(o.err.value) else Ok(JoinLines(o.written))
  }

  /** An empty patch gives back a text that is empty or ends in "\n", and
      adds the missing "\n" to any other. */
  lemma {:induction false} EmptyPatchText(text: string)
    ensures text == [] || text[|text| - 1] == '\n' ==> ApplyText([], text) == Ok(text)
    ensures text != [] && text[|text| - 1] != '\n' ==> ApplyText([], text) == Ok(text + "\n")
  {
    EmptyPatchCopies(SplitLines(text));
    if text == [] || text[|text| - 1] == '\n' {
      JoinSplitLines(text);
    } else {
      JoinSplitLines(text + "\n");
      SplitLinesOfUnterminated(text);
    }
  }

  /** A last line without "\n" is read as if it had one. */
  lemma {:induction false} SplitLinesOfUnterminated(text: string)
    requires text != [] && text[|text| - 1] != '\n'
    ensures SplitLines(text + "\n") == SplitLines(text)
    decreases |text|
  {
    var t := text + "\n";
    var i := IndexOf(text, '\n');
    IndexOfPrefix(text, "\n");
    if i < |text| {
      assert t[i + 1..] == text[i + 1..] + "\n";
      assert t[..i] == text[..i];
      SplitLinesOfUnterminated(text[i + 1..]);
    } else {
      assert t[..i] == text;
      assert t[i + 1..] == [];
    }
  }

  lemma {:induction false} IndexOfPrefix(s: string, rest: string)
    requires IndexOf(s, '\n') < |s| || (rest != [] && rest[0] == '\n')
    ensures IndexOf(s + rest, '\n') == IndexOf(s, '\n')
  {
    if s != [] {
      assert (s + rest)[0] == s[0];
      if s[0] != '\n' {
        assert (s + rest)[1..] == s[1..] + rest;
        IndexOfPrefix(s[1..], rest);
      }
    }
  }

  /** Every text a patch writes ends in "\n", unless it wrote nothing. */
  lemma {:induction false} OutputNewlineTerminated(p: Patch, text: string)
    requires ApplyText(p, text).Ok?
    ensures var out := ApplyText(p, text).value; out == [] || out[|out| - 1] == '\n'
  {
  }

  // ---------------------------------------------------------------------
  // The scanner and the writer
  // ---------------------------------------------------------------------

  /** A bufio.Scanner over the lines of a text. */
  class LineScanner {
    const lines: seq<string>
    /** Lines read so far. */
    var pos: nat

    ghost predicate Valid()
      reads this
    {
      pos <= |lines|
    }

    constructor (lines: seq<string>)
      ensures Valid() && this.lines == lines && pos == 0
    {
      this.lines := lines;
      pos := 0;
    }

    /** Reads the next line; false at the end of the input. */
    method Scan() returns (ok: bool)
      requires Valid()
      modifies this`pos
      ensures Valid()
      ensures ok <==> old(pos) < |lines|
      ensures pos == if ok then old(pos) + 1 else old(pos)
    {
      ok := pos < |lines|;
      if ok {
        pos := pos + 1;
      }
    }

    /** The line read last. */
    function Text(): string
      reads this
      requires Valid() && pos > 0
    {
      lines[pos - 1]
    }
  }

  /** The io.Writer the patched text goes to, as the lines written to it. */
  class LineWriter {
    var lines: seq<string>

    constructor ()
      ensures lines == []
    {
      lines := [];
    }

    /** fmt.Fprint(out, line, "\n"). */
    method WriteLine(line: string)
      modifies this
      ensures lines == old(lines) + [line]
    {
      lines := lines + [line];
    }

    /** The text written so far. */
    function Text(): string
      reads this
    {
      JoinLines(lines)
    }
  }

  // ---------------------------------------------------------------------
  // The applier
  // ---------------------------------------------------------------------

  /** patchAction.apply: consumes and checks the deletion lines of a deletion
      or change, then writes the addition lines of an addition or change. */
  method ApplyActionTo(a: PatchAction, scanner: LineScanner, out: LineWriter)
    returns (consumed: nat, err: Option<string>)
    requires scanner.Valid()
    modifies scanner, out
    ensures scanner.Valid()
    ensures var r := ApplyAction(a, scanner.lines, old(scanner.pos));
      && (r.Ok? ==> err.None? && consumed == r.value.consumed
                    && scanner.pos == old(scanner.pos) + consumed
                    && out.lines == old(out.lines) + r.value.written)
      && (r.Err? ==> err == Some(r.error)
                     && scanner.pos == old(scanner.pos) + consumed + 1
                     && out.lines == old(out.lines))
  {
    consumed, err := 0, None;
    ghost var start := scanner.pos;
    ghost var dels := a.deletionLines;
    if a.mode == Deletion || a.mode == Change {
      var done := false;
      while !done
        invariant scanner.Valid() && scanner.pos == start + consumed
        invariant consumed <= |dels|
        invariant forall j :: 0 <= j < consumed ==> LineMatches(scanner.lines[start + j], dels[j])
        invariant done ==> consumed == |dels| || scanner.pos == |scanner.lines|
        invariant out.lines == old(out.lines)
        decreases !done, |dels| - consumed
      {
        if consumed < |a.deletionLines| {
          var ok := scanner.Scan();
          if ok {
            var input := scanner.Text();
            var expected := a.deletionLines[consumed];
            if input != expected && input != TrimSpace(expected) {
              err := Some(MismatchMessage(consumed, expected, input));
              assert MatchedCount(dels, scanner.lines, start) == consumed by {
                MatchedCountUnique(dels, scanner.lines, start, consumed);
              }
              return;
            }
            consumed := consumed + 1;
          } else {
            done := true;
          }
        } else {
          done := true;
        }
      }
      MatchedCountUnique(dels, scanner.lines, start, consumed);
    }
    if a.mode == Addition || a.mode == Change {
      var k := 0;
      while k < |a.additionLines|
        invariant 0 <= k <= |a.additionLines|
        invariant scanner.Valid() && scanner.pos == start + consumed
        invariant out.lines == old(out.lines) + a.additionLines[..k]
      {
        out.WriteLine(a.additionLines[k]);
        k := k + 1;
      }
      assert a.additionLines[..k] == a.additionLines;
    }
  }

  /** The first stage of the loop of Patch.Apply: a deletion or change that
      starts at line. */
  method DeleteStage(p: Patch, scanner: LineScanner, out: LineWriter, patchNo: nat, line: nat)
    returns (patchNo2: nat, line2: nat, err: Option<string>)
    requires scanner.Valid()
    modifies scanner, out
    ensures scanner.Valid() && scanner.pos >= old(scanner.pos) && line2 >= line
    ensures var before := Prefix(old(out.lines), ApplyFrom(p, scanner.lines, patchNo, line, old(scanner.pos)));
      if err.None? then Prefix(out.lines, CopyStage(p, scanner.lines, patchNo2, line2, scanner.pos)) == before
      else out.lines == before.written && err == before.err
  {
    patchNo2, line2, err := patchNo, line, None;
    if patchNo < |p| && p[patchNo].startLine == line
       && (p[patchNo].mode == Deletion || p[patchNo].mode == Change)
    {
      var consumed, e := ApplyActionTo(p[patchNo], scanner, out);
      if e.Some? {
        err := e;
      } else {
        patchNo2 := patchNo + 1;
        line2 := line + consumed;
      }
    }
  }

  /** The second stage: one input line is copied, once reading has started;
      false when the input is used up. */
  method CopyStageTo(p: Patch, scanner: LineScanner, out: LineWriter, patchNo: nat, line: nat)
    returns (copied: bool)
    requires scanner.Valid()
    modifies scanner`pos, out
    ensures scanner.Valid() && scanner.pos >= old(scanner.pos)
    ensures copied && line > 0 ==> scanner.pos == old(scanner.pos) + 1
    ensures copied && line == 0 ==> scanner.pos == old(scanner.pos)
    ensures var before := Prefix(old(out.lines), CopyStage(p, scanner.lines, patchNo, line, old(scanner.pos)));
      if copied then Prefix(out.lines, AddStage(p, scanner.lines, patchNo, line, scanner.pos)) == before
      else out.lines == before.written && before.err.None?
  {
    copied := true;
    if line > 0 {
      var ok := scanner.Scan();
      if !ok {
        copied := false;
      } else {
        out.WriteLine(scanner.Text());
      }
    }
  }

  /** The third stage: an addition that starts at line. */
  method AddStageTo(p: Patch, scanner: LineScanner, out: LineWriter, patchNo: nat, line: nat)
    returns (patchNo2: nat)
    requires scanner.Valid()
    modifies scanner, out
    ensures scanner.Valid() && scanner.pos == old(scanner.pos)
    ensures Prefix(out.lines, ApplyFrom(p, scanner.lines, patchNo2, line + 1, scanner.pos))
      == Prefix(old(out.lines), AddStage(p, scanner.lines, patchNo, line, old(scanner.pos)))
  {
    patchNo2 := patchNo;
    if patchNo < |p| && p[patchNo].startLine == line && p[patchNo].mode == Addition {
      var _, _ := ApplyActionTo(p[patchNo], scanner, out);
      patchNo2 := patchNo + 1;
    }
  }

  /** One pass of the loop of Patch.Apply: the three stages in turn; done
      when an error occurred or the input is used up. */
  method ApplyRound(p: Patch, scanner: LineScanner, out: LineWriter, patchNo: nat, line: nat)
    returns (patchNo2: nat, line2: nat, err: Option<string>, done: bool)
    requires scanner.Valid()
    modifies scanner, out
    ensures scanner.Valid() && scanner.pos >= old(scanner.pos)
    ensures !done ==> old(scanner.pos) < scanner.pos || (line == 0 && line2 != 0)
    ensures var before := Prefix(old(out.lines), ApplyFrom(p, scanner.lines, patchNo, line, old(scanner.pos)));
      if done then out.lines == before.written && err == before.err
      else err.None? && Prefix(out.lines, ApplyFrom(p, scanner.lines, patchNo2, line2, scanner.pos)) == before
  {
    done := false;
    patchNo2, line2, err := DeleteStage(p, scanner, out, patchNo, line);
    if err.Some? {
      done := true;
      return;
    }
    var copied := CopyStageTo(p, scanner, out, patchNo2, line2);
    if copied {
      patchNo2 := AddStageTo(p, scanner, out, patchNo2, line2);
      line2 := line2 + 1;
    } else {
      done := true;
    }
  }

  /** Patch.Apply: reads the input line by line and writes the patched lines
      to out; an error stops it where it is. */
  method Apply(p: Patch, input: string, out: LineWriter) returns (err: Option<string>)
    modifies out
    ensures var r := ApplyLines(p, SplitLines(input));
      out.lines == old(out.lines) + r.written && err == r.err
  {
    var scanner := new LineScanner(SplitLines(input));
    ghost var goal := Prefix(old(out.lines), ApplyLines(p, scanner.lines));
    var patchNo, line := 0, 0;
    var done := false;
    err := None;
    while !done
      invariant fresh(scanner) && scanner.Valid() && scanner.lines == SplitLines(input)
      invariant !done ==> Prefix(out.lines, ApplyFrom(p, scanner.lines, patchNo, line, scanner.pos)) == goal
      invariant !done ==> err.None?
      invariant done ==> out.lines == goal.written && err == goal.err
      decreases !done, |scanner.lines| - scanner.pos, if line == 0 then 1 else 0
    {
      patchNo, line, err, done := ApplyRound(p, scanner, out, patchNo, line);
    }
  }
}
