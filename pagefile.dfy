/// The records of a PmWiki page file (pagefile.go): the page with its
/// current text and the revisions stored as diffs against older ones, and
/// the walk that rebuilds every older text from them.
module PageFiles {
  import opened Base
  import PatchParse
  import Patches

  /** One entry of the Revs map: who made the revision and the diff that
      turns its text into the text of the revision at DiffAgainst. The diff
      is kept as the text the page file holds. */
  datatype PageFileRevision = PageFileRevision(
    time: int,
    author: string,
    host: IP,
    diff: string,
    diffAgainst: int)

  datatype PageFile = PageFile(
    version: string,
    name: string,
    time: int,
    text: string,
    author: string,
    host: IP,
    rev: int,
    revs: map<int, PageFileRevision>,
    deleted: int)

  /** The zero PageFileRevision{}. */
  const EmptyRevision: PageFileRevision := PageFileRevision(ZeroTime, "", [], "", ZeroTime)

  /** The zero PageFile{}. */
  const EmptyPageFile: PageFile := PageFile("", "", ZeroTime, "", "", [], 0, map[], ZeroTime)

  /** No stored revision has its own time set: the parser never assigns
      it, so every revision keeps the zero time. */
  ghost predicate RevisionTimesUnset(pf: PageFile)
  {
    forall t :: t in pf.revs ==> pf.revs[t].time == ZeroTime
  }

  // ---------------------------------------------------------------------
  // The views of Revisions
  // ---------------------------------------------------------------------

  /** net.ParseIP("::1"): the 16-byte IPv6 loopback address. */
  const Loopback: IP := [0, 0, 0, 0, 0, 0, 0, 0, 0, 0, 0, 0, 0, 0, 0, 1]

  /** A signed integer in decimal, as fmt's %d writes it. */
  function FormatInt(n: int): string
  {
    if n < 0 then "-" + Decimal(-n) else Decimal(n)
  }

  function MissingMessage(revNo: int): string
  {
    "revision " + FormatInt(revNo) + " is missing"
  }

  /** The entry of revs at time t, if there is one. */
  function Lookup(revs: map<int, PageFileRevision>, t: int): Option<PageFileRevision>
  {
    if t in revs then Some(revs[t]) else None
  }

  /** The view of a page as it was at a revision: the page's version and
      name with the revision's time, author and host, the given text and
      revision number, and neither revisions nor a deletion time. */
  function View(pf: PageFile, rev: PageFileRevision, text: string, revNo: int): PageFile
  {
    PageFile(pf.version, pf.name, rev.time, text, rev.author, rev.host, revNo, map[], ZeroTime)
  }

  /** The view handed out last for a deleted page: no text, no author, the
      loopback host, the deletion time and the revision after the last. */
  function DeletedView(pf: PageFile): PageFile
  {
    PageFile(pf.version, pf.name, pf.deleted, "", "", Loopback, pf.rev + 1, map[], ZeroTime)
  }

  /** The text of the older revision: the stored diff is parsed and then
      applied to the newer text. */
  function OlderText(diff: string, text: string): Result<string, string>
  {
    match PatchParse.ParsePatchText(diff)
    case Err(e) => Err(e)
    case Ok(p) => Patches.ApplyText(p, text)
  }

  /** How the walk turns the text of a revision into the text of the one its
      diff is against, given the stored diff: OlderText in Revisions. */
  type DiffStep = (string, string) -> Result<string, string>

  /** What Revisions hands to its callback, in order, and what it returns.
      cut is set when the walk was stopped by the fuel bound rather than by
      the page file itself. */
  datatype Walk = Walk(views: seq<PageFile>, err: Option<string>, cut: bool)

  /** The walk down the chain of revisions, from the revision rev (if the
      lookup found one) with the text text and number revNo. It visits at
      most fuel revisions. */
  function WalkFrom(pf: PageFile, apply: DiffStep, rev: Option<PageFileRevision>, text: string, revNo: int, fuel: nat): (w: Walk)
    decreases fuel
  {
    if text == "" then Walk([], None, false)
    else if rev.None? then Walk([], Some(MissingMessage(revNo)), false)
    else if fuel == 0 then Walk([], None, true)
    else
      var view := View(pf, rev.value, text, revNo);
      match apply(rev.value.diff, text)
      case Err(e) => Walk([view], Some(e), false)
      case Ok(older) =>
        var w := WalkFrom(pf, apply, Lookup(pf.revs, rev.value.diffAgainst), older, revNo - 1, fuel - 1);
        Walk([view] + w.views, w.err, w.cut)
  }

  /** PageFile.Revisions, with at most fuel revisions visited. */
  function RevisionViews(pf: PageFile, fuel: nat): Walk
  {
    var w :=
      if |pf.revs| == 0 then Walk([pf], None, false)
      else WalkFrom(pf, OlderText, Lookup(pf.revs, pf.time), pf.text, pf.rev, fuel);
    if pf.deleted != ZeroTime then Walk(w.views + [DeletedView(pf)], w.err, w.cut) else w
  }

  /** One step of the loop of Revisions: the diff of the revision is parsed
      and applied to the text of the newer revision, written line by line
      into a fresh builder. */
  method ApplyDiff(diff: string, text: string) returns (older: Result<string, string>)
    ensures older == OlderText(diff, text)
  {
    var patch, perr := PatchParse.ParsePatch(diff);
    if perr.Some? {
      return Err(perr.value);
    }
    var out := new Patches.LineWriter();
    var aerr := Patches.Apply(patch, text, out);
    if aerr.Some? {
      return Err(aerr.value);
    }
    assert out.lines == Patches.ApplyLines(patch, SplitLines(text)).written;
    older := Ok(out.Text());
  }

  /** A step of the walk that reaches the older text. */
  lemma WalkStep(pf: PageFile, apply: DiffStep, r: PageFileRevision, text: string, revNo: int, fuel: nat, revNo': int, fuel': nat, older: string, rest: Walk)
    requires text != "" && fuel > 0 && revNo' == revNo - 1 && fuel' == fuel - 1 && apply(r.diff, text) == Ok(older)
    requires rest == WalkFrom(pf, apply, Lookup(pf.revs, r.diffAgainst), older, revNo', fuel')
    ensures WalkFrom(pf, apply, Some(r), text, revNo, fuel) == Walk([View(pf, r, text, revNo)] + rest.views, rest.err, rest.cut)
  {
  }

  /** The walk ends at once on an empty text, a missing revision or a
      used-up bound. */
  lemma WalkEnds(pf: PageFile, apply: DiffStep, rev: Option<PageFileRevision>, text: string, revNo: int, fuel: nat)
    ensures text == "" ==> WalkFrom(pf, apply, rev, text, revNo, fuel) == Walk([], None, false)
    ensures text != "" && rev.None? ==> WalkFrom(pf, apply, rev, text, revNo, fuel) == Walk([], Some(MissingMessage(revNo)), false)
    ensures text != "" && rev.Some? && fuel == 0 ==> WalkFrom(pf, apply, rev, text, revNo, fuel) == Walk([], None, true)
  {
  }

  /** A step of the walk whose diff fails ends it with that error. */
  lemma WalkFails(pf: PageFile, apply: DiffStep, r: PageFileRevision, text: string, revNo: int, fuel: nat, e: string)
    requires text != "" && fuel > 0 && apply(r.diff, text) == Err(e)
    ensures WalkFrom(pf, apply, Some(r), text, revNo, fuel) == Walk([View(pf, r, text, revNo)], Some(e), false)
  {
  }

  /** One pass of the loop of Revisions past the view of revision r: the
      text of the revision its diff is against, or the error that ends the
      walk. The walk goes on with revision number revNo' and bound fuel'. */
  method Advance(pf: PageFile, r: PageFileRevision, text: string, revNo: int, fuel: nat, revNo': int, fuel': nat)
    returns (older: Result<string, string>)
    requires text != "" && fuel > 0 && revNo' == revNo - 1 && fuel' == fuel - 1
    ensures older.Err? ==>
      WalkFrom(pf, OlderText, Some(r), text, revNo, fuel) == Walk([View(pf, r, text, revNo)], Some(older.error), false)
    ensures older.Ok? ==>
      var rest := WalkFrom(pf, OlderText, Lookup(pf.revs, r.diffAgainst), older.value, revNo', fuel');
      WalkFrom(pf, OlderText, Some(r), text, revNo, fuel) == Walk([View(pf, r, text, revNo)] + rest.views, rest.err, rest.cut)
  {
    older := ApplyDiff(r.diff, text);
    if older.Err? {
      WalkFails(pf, OlderText, r, text, revNo, fuel, older.error);
    } else {
      var rest := WalkFrom(pf, OlderText, Lookup(pf.revs, r.diffAgainst), older.value, revNo', fuel');
      WalkStep(pf, OlderText, r, text, revNo, fuel, revNo', fuel', older.value, rest);
    }
  }

  /** PageFile.Revisions: the views it passes to the callback, in order,
      and the error it returns. The walk visits at most fuel revisions. */
  method Revisions(pf: PageFile, fuel: nat) returns (views: seq<PageFile>, err: Option<string>, cut: bool)
    ensures Walk(views, err, cut) == RevisionViews(pf, fuel)
  {
    views, err, cut := [], None, false;
    if |pf.revs| == 0 {
      views := [pf];
    } else {
      var text := pf.text;
      var revNo := pf.rev;
      var rev := Lookup(pf.revs, pf.time);
      var left := fuel;
      ghost var goal := WalkFrom(pf, OlderText, rev, text, revNo, fuel);
      var done := false;
      while text != "" && !done
        invariant !done ==>
          err.None? && !cut && goal == Concat(views, WalkFrom(pf, OlderText, rev, text, revNo, left))
        invariant done ==> Walk(views, err, cut) == goal
        decreases left, !done
      {
        if rev.None? {
          WalkEnds(pf, OlderText, rev, text, revNo, left);
          err := Some(MissingMessage(revNo));
          done := true;
        } else if left == 0 {
          WalkEnds(pf, OlderText, rev, text, revNo, left);
          cut := true;
          done := true;
        } else {
          var r := rev.value;
          ghost var before := views;
          var v := View(pf, r, text, revNo);
          assert goal == Concat(before, WalkFrom(pf, OlderText, Some(r), text, revNo, left));
          views := views + [v];
          var revNo', left' := revNo - 1, left - 1;
          var older := Advance(pf, r, text, revNo, left, revNo', left');
          if older.Err? {
            assert goal == Concat(before, Walk([v], Some(older.error), false));
            err := Some(older.error);
            done := true;
          } else {
            ghost var rest := WalkFrom(pf, OlderText, Lookup(pf.revs, r.diffAgainst), older.value, revNo', left');
            ConcatAssoc(before, v, rest);
            text, rev, revNo, left := older.value, Lookup(pf.revs, r.diffAgainst), revNo', left';
          }
        }
      }
      WalkEnds(pf, OlderText, rev, text, revNo, left);
    }
    if pf.deleted != ZeroTime {
      views := views + [DeletedView(pf)];
    }
  }

  /** The views seen so far followed by the rest of a walk. */
  function Concat(views: seq<PageFile>, w: Walk): Walk
  {
    Walk(views + w.views, w.err, w.cut)
  }

  lemma ConcatAssoc(before: seq<PageFile>, v: PageFile, rest: Walk)
    ensures Concat(before, Walk([v] + rest.views, rest.err, rest.cut)) == Concat(before + [v], rest)
  {
    assert before + ([v] + rest.views) == (before + [v]) + rest.views;
  }

  // ---------------------------------------------------------------------
  // What Revisions promises
  // ---------------------------------------------------------------------

  /** A deleted page ends with the deletion view, whether or not the walk
      failed; a page that is not deleted ends with the walk itself. */
  lemma DeletedViewLast(pf: PageFile, fuel: nat)
    ensures var w := RevisionViews(pf, fuel);
      pf.deleted != ZeroTime ==> |w.views| > 0 && w.views[|w.views| - 1] == DeletedView(pf)
    ensures var w := RevisionViews(pf, fuel);
      pf.deleted != ZeroTime ==>
        var d := w.views[|w.views| - 1];
        d.text == "" && d.author == "" && d.host == Loopback && d.time == pf.deleted && d.rev == pf.rev + 1
  {
  }

  /** A page without stored revisions is handed over as it is, once, and
      nothing fails. */
  lemma NoRevisionsOneView(pf: PageFile, fuel: nat)
    requires |pf.revs| == 0
    ensures RevisionViews(pf, fuel).err == None
    ensures RevisionViews(pf, fuel).views[0] == pf
    ensures |RevisionViews(pf, fuel).views| == if pf.deleted != ZeroTime then 2 else 1
  {
  }

  /** If the current revision is not stored, nothing but the deletion view
      is handed over and the error names the page's revision number. */
  lemma CurrentRevisionMissing(pf: PageFile, fuel: nat)
    requires |pf.revs| > 0 && pf.text != "" && pf.time !in pf.revs
    ensures RevisionViews(pf, fuel).err == Some(MissingMessage(pf.rev))
    ensures RevisionViews(pf, fuel).views == if pf.deleted != ZeroTime then [DeletedView(pf)] else []
  {
  }

  /** Every view of the walk carries the page's version and name, a
      non-empty text, and the revision number counted down by one per
      step; a walk stopped by the bound has used all of it, and one that
      failed was not stopped by it. */
  lemma {:induction false} WalkShape(pf: PageFile, apply: DiffStep, rev: Option<PageFileRevision>, text: string, revNo: int, fuel: nat)
    ensures var w := WalkFrom(pf, apply, rev, text, revNo, fuel);
      && |w.views| <= fuel
      && (w.cut ==> |w.views| == fuel && w.err.None?)
      && forall k :: 0 <= k < |w.views| ==>
           && w.views[k].version == pf.version && w.views[k].name == pf.name
           && w.views[k].text != "" && w.views[k].rev == revNo - k
    decreases fuel
  {
    if text != "" && rev.Some? && fuel > 0 {
      match apply(rev.value.diff, text)
      case Err(e) =>
      case Ok(older) =>
        WalkShape(pf, apply, Lookup(pf.revs, rev.value.diffAgainst), older, revNo - 1, fuel - 1);
    }
  }

  /** The k-th view of the page's revisions (counting from 0) has the
      revision number pf.rev - k. */
  lemma RevisionNumbers(pf: PageFile, fuel: nat, k: nat)
    requires |pf.revs| > 0
    requires k < |WalkFrom(pf, OlderText, Lookup(pf.revs, pf.time), pf.text, pf.rev, fuel).views|
    ensures RevisionViews(pf, fuel).views[k].rev == pf.rev - k
    ensures RevisionViews(pf, fuel).views[k].text != ""
  {
    WalkShape(pf, OlderText, Lookup(pf.revs, pf.time), pf.text, pf.rev, fuel);
  }

  /** A chain of revisions and texts as the page file describes it: each
      revision is stored under the time the one before it diffs against,
      and each text is the one before it with that revision's diff
      applied. */
  predicate Chain(pf: PageFile, apply: DiffStep, first: Option<PageFileRevision>, rs: seq<PageFileRevision>, texts: seq<string>)
    decreases |rs|
  {
    && |texts| == |rs| + 1
    && (rs != [] ==>
          && first == Some(rs[0])
          && texts[0] != ""
          && apply(rs[0].diff, texts[0]) == Ok(texts[1])
          && Chain(pf, apply, Lookup(pf.revs, rs[0].diffAgainst), rs[1..], texts[1..]))
  }

  /** The revision the walk looks at after the chain rs. */
  function After(pf: PageFile, first: Option<PageFileRevision>, rs: seq<PageFileRevision>): Option<PageFileRevision>
  {
    if rs == [] then first else Lookup(pf.revs, rs[|rs| - 1].diffAgainst)
  }

  /** The views of the revisions of a chain, numbered down from revNo. */
  function ChainViews(pf: PageFile, rs: seq<PageFileRevision>, texts: seq<string>, revNo: int): (vs: seq<PageFile>)
    requires |texts| == |rs| + 1
    ensures |vs| == |rs|
    ensures forall k :: 0 <= k < |rs| ==> vs[k] == View(pf, rs[k], texts[k], revNo - k)
    decreases |rs|
  {
    if rs == [] then [] else [View(pf, rs[0], texts[0], revNo)] + ChainViews(pf, rs[1..], texts[1..], revNo - 1)
  }

  lemma ChainViewsCons(pf: PageFile, rs: seq<PageFileRevision>, texts: seq<string>, revNo: int, revNo': int)
    requires |texts| == |rs| + 1 && rs != [] && revNo' == revNo - 1
    ensures ChainViews(pf, rs, texts, revNo) == [View(pf, rs[0], texts[0], revNo)] + ChainViews(pf, rs[1..], texts[1..], revNo')
  {
  }

  /** Along such a chain, and within the bound, the walk hands over one view
      per revision (that revision's time, author and host with the text it
      had) and then goes on from the revision after the chain. */
  lemma {:induction false} WalkFollowsChain(pf: PageFile, apply: DiffStep, first: Option<PageFileRevision>, rs: seq<PageFileRevision>, texts: seq<string>, revNo: int, fuel: nat,
                                            last: string, revEnd: int, fuelEnd: nat, rest: Walk)
    requires Chain(pf, apply, first, rs, texts)
    requires last == texts[|rs|] && revEnd == revNo - |rs| && fuelEnd == fuel - |rs|
    requires rest == WalkFrom(pf, apply, After(pf, first, rs), last, revEnd, fuelEnd)
    ensures var w := WalkFrom(pf, apply, first, texts[0], revNo, fuel);
      w.views == ChainViews(pf, rs, texts, revNo) + rest.views && w.err == rest.err && w.cut == rest.cut
    decreases |rs|
  {
    if |rs| > 0 {
      var next := Lookup(pf.revs, rs[0].diffAgainst);
      var rs', texts', revNo', fuel' := rs[1..], texts[1..], revNo - 1, fuel - 1;
      assert After(pf, next, rs') == After(pf, first, rs);
      assert texts'[|rs'|] == texts[|rs|] && texts'[0] == texts[1];
      WalkFollowsChain(pf, apply, next, rs', texts', revNo', fuel', last, revEnd, fuelEnd, rest);
      var inner := WalkFrom(pf, apply, next, texts[1], revNo', fuel');
      WalkStep(pf, apply, rs[0], texts[0], revNo, fuel, revNo', fuel', texts[1], inner);
      var v := View(pf, rs[0], texts[0], revNo);
      var vs := ChainViews(pf, rs', texts', revNo');
      ChainViewsCons(pf, rs, texts, revNo, revNo');
      AppendAssoc([v], vs, rest.views);
      assert first == Some(rs[0]);
    } else {
      assert revEnd == revNo && fuelEnd == fuel && last == texts[0];
    }
  }

  /** The walk ends without error at the first empty text. */
  lemma EmptyTextEndsWalk(pf: PageFile, apply: DiffStep, first: Option<PageFileRevision>, rs: seq<PageFileRevision>, texts: seq<string>, revNo: int, fuel: nat)
    requires Chain(pf, apply, first, rs, texts) && |rs| <= fuel && texts[|rs|] == ""
    ensures WalkFrom(pf, apply, first, texts[0], revNo, fuel) == Walk(ChainViews(pf, rs, texts, revNo), None, false)
  {
    WalkFollowsChain(pf, apply, first, rs, texts, revNo, fuel, texts[|rs|], revNo - |rs|, fuel - |rs|,
                     WalkFrom(pf, apply, After(pf, first, rs), texts[|rs|], revNo - |rs|, fuel - |rs|));
  }

  /** A revision missing from the map ends the walk with an error that
      names the number it would have had; the views before it stand. */
  lemma MissingRevisionEndsWalk(pf: PageFile, apply: DiffStep, first: Option<PageFileRevision>, rs: seq<PageFileRevision>, texts: seq<string>, revNo: int, fuel: nat)
    requires Chain(pf, apply, first, rs, texts) && |rs| <= fuel
    requires texts[|rs|] != "" && After(pf, first, rs).None?
    ensures WalkFrom(pf, apply, first, texts[0], revNo, fuel)
         == Walk(ChainViews(pf, rs, texts, revNo), Some(MissingMessage(revNo - |rs|)), false)
  {
    WalkFollowsChain(pf, apply, first, rs, texts, revNo, fuel, texts[|rs|], revNo - |rs|, fuel - |rs|,
                     WalkFrom(pf, apply, After(pf, first, rs), texts[|rs|], revNo - |rs|, fuel - |rs|));
  }

  /** A diff that does not parse or apply ends the walk with its error,
      after the view of the revision it belongs to; the views before it
      stand. */
  lemma BadDiffEndsWalk(pf: PageFile, apply: DiffStep, first: Option<PageFileRevision>, rs: seq<PageFileRevision>, texts: seq<string>, revNo: int, fuel: nat, bad: PageFileRevision, e: string)
    requires Chain(pf, apply, first, rs, texts) && |rs| < fuel
    requires texts[|rs|] != "" && After(pf, first, rs) == Some(bad)
    requires apply(bad.diff, texts[|rs|]) == Err(e)
    ensures WalkFrom(pf, apply, first, texts[0], revNo, fuel)
         == Walk(ChainViews(pf, rs, texts, revNo) + [View(pf, bad, texts[|rs|], revNo - |rs|)], Some(e), false)
  {
    WalkFollowsChain(pf, apply, first, rs, texts, revNo, fuel, texts[|rs|], revNo - |rs|, fuel - |rs|,
                     WalkFrom(pf, apply, After(pf, first, rs), texts[|rs|], revNo - |rs|, fuel - |rs|));
  }

  /** A revision stored as diffing against itself with an empty diff never
      leaves the walk: whatever the bound, it is used up. The source's loop
      has no bound and goes on for ever on such a page file. */
  lemma {:induction false} SelfLoopNeverEnds(pf: PageFile, r: PageFileRevision, text: string, revNo: int, fuel: nat)
    requires pf.revs == map[r.diffAgainst := r] && r.diff == ""
    requires text != "" && text[|text| - 1] == '\n'
    ensures WalkFrom(pf, OlderText, Some(r), text, revNo, fuel).cut
    ensures |WalkFrom(pf, OlderText, Some(r), text, revNo, fuel).views| == fuel
    decreases fuel
  {
    if fuel > 0 {
      PatchParse.BlankPatch(r.diff);
      Patches.EmptyPatchText(text);
      assert OlderText(r.diff, text) == Ok(text);
      SelfLoopNeverEnds(pf, r, text, revNo - 1, fuel - 1);
    }
  }

  /** On a page file whose revisions carry no time, as the parser leaves
      them, every view of the walk has the zero time. */
  lemma {:induction false} WalkViewTimes(pf: PageFile, apply: DiffStep, rev: Option<PageFileRevision>, text: string, revNo: int, fuel: nat)
    requires RevisionTimesUnset(pf) && (rev.Some? ==> rev.value.time == ZeroTime)
    ensures var w := WalkFrom(pf, apply, rev, text, revNo, fuel);
      forall k :: 0 <= k < |w.views| ==> w.views[k].time == ZeroTime
    decreases fuel
  {
    if text != "" && rev.Some? && fuel > 0 {
      match apply(rev.value.diff, text)
      case Err(e) =>
      case Ok(older) =>
        var revNo', fuel' := revNo - 1, fuel - 1;
        var next := Lookup(pf.revs, rev.value.diffAgainst);
        WalkViewTimes(pf, apply, next, older, revNo', fuel');
        WalkStep(pf, apply, rev.value, text, revNo, fuel, revNo', fuel', older, WalkFrom(pf, apply, next, older, revNo', fuel'));
    }
  }
}
