/** The derived view `filteredList`: the entries whose lower-case form
    contains the lower-case filter, in list order, cut to the page size by
    `slice(0, pageSize)`. It is recomputed from the list and the options and
    never stored. */
module View {
  import opened Text

  /** The filter callback: case-insensitive substring match. The empty
      filter matches every name, and no filter longer than the name matches. */
  predicate Matches(name: string, filter: string)
    ensures filter == "" ==> Matches(name, filter)
    ensures Matches(name, filter) ==> |filter| <= |name|
  {
    Contains(ToLower(name), ToLower(filter))
  }

  /** `list.filter(name => Matches(name, filter))`: never longer than the
      list. */
  function Filter(list: seq<string>, filter: string): (r: seq<string>)
    ensures |r| <= |list|
  {
    if list == [] then []
    else (if Matches(list[0], filter) then [list[0]] else []) + Filter(list[1..], filter)
  }

  /** The end index `slice(0, end)` stops at on a sequence of length `len`:
      a negative end counts back from the length, and the end is clamped to
      `[0, len]`. */
  function SliceEnd(len: nat, end: int): (e: nat)
    ensures e <= len
  {
    if end < 0 then (if len + end < 0 then 0 else len + end)
    else if end < len then end else len
  }

  /** `s.slice(0, end)`: a prefix of `s`, of length `end` when `end` is
      within bounds. */
  function Slice(s: seq<string>, end: int): (r: seq<string>)
    ensures r <= s
    ensures 0 <= end <= |s| ==> |r| == end
  {
    s[..SliceEnd(|s|, end)]
  }

  /** `filteredList` for the given list and options: a prefix of the
      matches, never longer than the list, nor than a non-negative page size. */
  function Derive(list: seq<string>, filter: string, pageSize: int): (r: seq<string>)
    ensures r <= Filter(list, filter)
    ensures |r| <= |list|
    ensures 0 <= pageSize ==> |r| <= pageSize
  {
    Slice(Filter(list, filter), pageSize)
  }

  /** `sub` is obtained from `s` by deleting elements, keeping the order. */
  predicate IsSubsequence(sub: seq<string>, s: seq<string>) {
    sub == [] ||
    (s != [] &&
     ((sub[0] == s[0] && IsSubsequence(sub[1..], s[1..])) || IsSubsequence(sub, s[1..])))
  }

  /** A prefix of a subsequence is again a subsequence. */
  lemma {:induction false} PrefixOfSubsequence(p: seq<string>, sub: seq<string>, s: seq<string>)
    requires p <= sub && IsSubsequence(sub, s)
    ensures IsSubsequence(p, s)
  {
    if p != [] {
      if sub[0] == s[0] && IsSubsequence(sub[1..], s[1..]) {
        PrefixOfSubsequence(p[1..], sub[1..], s[1..]);
      } else {
        PrefixOfSubsequence(p, sub, s[1..]);
      }
    }
  }

  /** Every element of a subsequence is an element of the sequence. */
  lemma {:induction false} SubsequenceMembers(sub: seq<string>, s: seq<string>)
    requires IsSubsequence(sub, s)
    ensures forall x :: x in sub ==> x in s
  {
    if sub != [] {
      if sub[0] == s[0] && IsSubsequence(sub[1..], s[1..]) {
        SubsequenceMembers(sub[1..], s[1..]);
        assert sub == [sub[0]] + sub[1..];
      } else {
        SubsequenceMembers(sub, s[1..]);
      }
    }
  }

  /** The filter keeps entries in their original relative order. */
  lemma {:induction false} FilterIsSubsequence(list: seq<string>, filter: string)
    ensures IsSubsequence(Filter(list, filter), list)
  {
    if list != [] {
      FilterIsSubsequence(list[1..], filter);
      var rest := Filter(list[1..], filter);
      if Matches(list[0], filter) {
        assert Filter(list, filter) == [list[0]] + rest;
        assert Filter(list, filter)[1..] == rest;
      } else {
        assert Filter(list, filter) == rest;
      }
    }
  }

  /** The filter keeps every matching entry, with its multiplicity, and drops
      every entry that does not match. */
  lemma {:induction false} FilterCounts(list: seq<string>, filter: string, x: string)
    ensures multiset(Filter(list, filter))[x] == if Matches(x, filter) then multiset(list)[x] else 0
  {
    if list != [] {
      FilterCounts(list[1..], filter, x);
      assert list == [list[0]] + list[1..];
    }
  }

  /** Filtering distributes over concatenation: entries added at the end
      of the list can only add matches at the end of the filtered list. */
  lemma {:induction false} FilterAppend(a: seq<string>, b: seq<string>, filter: string)
    ensures Filter(a + b, filter) == Filter(a, filter) + Filter(b, filter)
  {
    if a != [] {
      FilterAppend(a[1..], b, filter);
      assert (a + b)[1..] == a[1..] + b;
    } else {
      assert a + b == b;
    }
  }

  /** Every entry the filter keeps matches the filter. */
  lemma {:induction false} FilterMatches(list: seq<string>, filter: string)
    ensures forall i :: 0 <= i < |Filter(list, filter)| ==> Matches(Filter(list, filter)[i], filter)
    ensures |Filter(list, filter)| <= |list|
  {
    if list != [] {
      FilterMatches(list[1..], filter);
    }
  }

  /** Every element of the view is a raw entry, in the same relative order,
      whose lower-case form contains the lower-case filter. */
  lemma DeriveSound(list: seq<string>, filter: string, pageSize: int)
    ensures IsSubsequence(Derive(list, filter, pageSize), list)
    ensures forall i :: 0 <= i < |Derive(list, filter, pageSize)| ==>
      Matches(Derive(list, filter, pageSize)[i], filter) &&
      Derive(list, filter, pageSize)[i] in list
  {
    var d := Derive(list, filter, pageSize);
    FilterIsSubsequence(list, filter);
    FilterMatches(list, filter);
    PrefixOfSubsequence(d, Filter(list, filter), list);
    SubsequenceMembers(d, list);
  }

  /** For a page size of zero or more, the view is the prefix of the full
      filtered subsequence whose length is the smaller of the page size and
      the number of matches. */
  lemma DerivePrefix(list: seq<string>, filter: string, pageSize: int)
    requires 0 <= pageSize
    ensures Derive(list, filter, pageSize) <= Filter(list, filter)
    ensures |Derive(list, filter, pageSize)|
      == if pageSize < |Filter(list, filter)| then pageSize else |Filter(list, filter)|
  {
  }

  /** A negative page size drops that many matches from the end, as
      `slice` does. */
  lemma DeriveNegativePageSize(list: seq<string>, filter: string, pageSize: int)
    requires pageSize < 0
    ensures Derive(list, filter, pageSize) <= Filter(list, filter)
    ensures |Derive(list, filter, pageSize)|
      == if |Filter(list, filter)| + pageSize < 0 then 0 else |Filter(list, filter)| + pageSize
  {
  }

  /** Page size 0 shows nothing; a page size of at least the list length
      shows every match. */
  lemma DerivePageBounds(list: seq<string>, filter: string, pageSize: int)
    ensures pageSize == 0 ==> Derive(list, filter, pageSize) == []
    ensures |list| <= pageSize ==> Derive(list, filter, pageSize) == Filter(list, filter)
  {
    FilterMatches(list, filter);
  }

  /** The empty filter matches every entry. */
  lemma {:induction false} EmptyFilterKeepsAll(list: seq<string>)
    ensures Filter(list, "") == list
  {
    if list != [] {
      EmptyFilterKeepsAll(list[1..]);
      ContainsEmpty(ToLower(list[0]));
    }
  }
}
