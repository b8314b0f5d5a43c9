/// ByTime (pagefile_sort.go): the sort.Interface that orders page file
/// views by their time, over the backing array of a slice.
module PageFileSort {
  import opened PageFiles

  /** ByTime.Len: the number of views. */
  function Len(pfs: array<PageFile>): (n: int)
    ensures n == pfs.Length && n >= 0
  {
    pfs.Length
  }

  /** ByTime.Less: view i is strictly earlier than view j. */
  predicate Less(pfs: array<PageFile>, i: int, j: int)
    requires 0 <= i < pfs.Length && 0 <= j < pfs.Length
    reads pfs
  {
    pfs[i].time < pfs[j].time
  }

  /** Less is a strict weak order: irreflexive, transitive, and two views
      that are not ordered either way have the same time. */
  lemma LessIsStrictWeakOrder(pfs: array<PageFile>, i: int, j: int, k: int)
    requires 0 <= i < pfs.Length && 0 <= j < pfs.Length && 0 <= k < pfs.Length
    ensures !Less(pfs, i, i)
    ensures Less(pfs, i, j) && Less(pfs, j, k) ==> Less(pfs, i, k)
    ensures Less(pfs, i, j) ==> !Less(pfs, j, i)
    ensures !Less(pfs, i, j) && !Less(pfs, j, i) <==> pfs[i].time == pfs[j].time
  {
  }

  /** ByTime.Swap: views i and j trade places and nothing else moves. */
  method Swap(pfs: array<PageFile>, i: int, j: int)
    requires 0 <= i < pfs.Length && 0 <= j < pfs.Length
    modifies pfs
    ensures pfs[i] == old(pfs[j]) && pfs[j] == old(pfs[i])
    ensures forall k :: 0 <= k < pfs.Length && k != i && k != j ==> pfs[k] == old(pfs[k])
    ensures pfs[..] == old(pfs[..])[i := old(pfs[j])][j := old(pfs[i])]
    ensures multiset(pfs[..]) == multiset(old(pfs[..]))
  {
    pfs[i], pfs[j] := pfs[j], pfs[i];
  }

  /** The views are in non-decreasing order of time; equal times may come in
      any order. */
  ghost predicate Sorted(s: seq<PageFile>)
  {
    forall k, l :: 0 <= k < l < |s| ==> s[k].time <= s[l].time
  }

  /** The prefix s[..n] is sorted once the element at j is set aside, and
      that element is strictly earlier than every element after it in the
      prefix. */
  ghost predicate SortedAround(s: seq<PageFile>, n: int, j: int)
    requires 0 <= j < n <= |s|
  {
    && (forall k, l :: 0 <= k < l < n && k != j && l != j ==> s[k].time <= s[l].time)
    && (forall l :: j < l < n ==> s[j].time < s[l].time)
  }

  /** Once the element at j is no earlier than the one before it, the
      prefix is sorted. */
  lemma {:induction false} SortedAroundDone(s: seq<PageFile>, n: int, j: int)
    requires 0 <= j < n <= |s| && SortedAround(s, n, j)
    requires j == 0 || s[j - 1].time <= s[j].time
    ensures SortedPrefix(s, n)
  {
    forall k, l | 0 <= k < l < n
      ensures s[k].time <= s[l].time
    {
      if l == j && k < j - 1 {
        assert s[k].time <= s[j - 1].time;
      }
    }
  }

  /** Swapping the element at j with a strictly later one before it keeps
      the prefix sorted around the element's new place. */
  lemma {:induction false} SortedAroundStep(s: seq<PageFile>, t: seq<PageFile>, n: int, j: int)
    requires 0 < j < n <= |s| && SortedAround(s, n, j) && s[j].time < s[j - 1].time
    requires t == s[j := s[j - 1]][j - 1 := s[j]]
    ensures SortedAround(t, n, j - 1)
  {
    forall l | j - 1 < l < n
      ensures t[j - 1].time < t[l].time
    {
      if l > j {
        assert s[j - 1].time <= s[l].time;
      }
    }
  }

  /** The first n views are in non-decreasing order of time. */
  ghost predicate SortedPrefix(s: seq<PageFile>, n: int)
  {
    forall k, l :: 0 <= k < l < n && l < |s| ==> s[k].time <= s[l].time
  }

  /** One round of insertion: the view at i moves left past every view
      strictly later than it. */
  method Insert(pfs: array<PageFile>, i: int)
    requires 0 <= i < pfs.Length && SortedPrefix(pfs[..], i)
    modifies pfs
    ensures SortedPrefix(pfs[..], i + 1)
    ensures multiset(pfs[..]) == multiset(old(pfs[..]))
  {
    var j := i;
    while j > 0 && Less(pfs, j, j - 1)
      invariant 0 <= j <= i
      invariant SortedAround(pfs[..], i + 1, j)
      invariant multiset(pfs[..]) == multiset(old(pfs[..]))
    {
      ghost var before := pfs[..];
      Swap(pfs, j, j - 1);
      SortedAroundStep(before, pfs[..], i + 1, j);
      j := j - 1;
    }
    SortedAroundDone(pfs[..], i + 1, j);
  }

  /** sort.Sort(ByTime(pfs)), here by insertion through Less and Swap: the
      views end up in non-decreasing order of time and are a permutation of
      the ones given. */
  method SortByTime(pfs: array<PageFile>)
    modifies pfs
    ensures Sorted(pfs[..])
    ensures multiset(pfs[..]) == multiset(old(pfs[..]))
  {
    var i := 0;
    while i < Len(pfs)
      invariant 0 <= i <= pfs.Length
      invariant SortedPrefix(pfs[..], i)
      invariant multiset(pfs[..]) == multiset(old(pfs[..]))
    {
      Insert(pfs, i);
      i := i + 1;
    }
  }
}
