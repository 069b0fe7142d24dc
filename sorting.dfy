/**
 * The ordering of `SortAndPopulateDir` (main.cpp): a `..` entry first, then
 * directories before files, then the chosen column. Columns 1 to 5 are size,
 * modification time, mode string, owner and group; any other column sorts by
 * name, with hidden (dot) names ahead of the others. `sort_desc_ == true`
 * compares with `<` and `false` with `>`, so the initial order is descending.
 */
module Sorting {
  import opened Text
  import opened Listing

  /** Columns other than 1 to 5 compare names. */
  predicate NameColumn(col: int)
  {
    !(1 <= col <= 5)
  }

  /** `desc ? (a < b) : (a > b)` on strings. */
  predicate TextBefore(desc: bool, a: string, b: string)
  {
    if desc then Less(a, b) else Less(b, a)
  }

  /** `desc ? (a < b) : (a > b)` on numbers. */
  predicate NumBefore(desc: bool, a: nat, b: nat)
  {
    if desc then a < b else a > b
  }

  predicate Hidden(name: string)
  {
    |name| > 0 && name[0] == '.'
  }

  /** The comparator lambda of `SortAndPopulateDir`, branch for branch. */
  predicate Compare(col: int, desc: bool, a: DirEntry, b: DirEntry)
  {
    if a.name == ".." then true
    else if b.name == ".." then false
    else if IsDir(a) && !IsDir(b) then true
    else if !IsDir(a) && IsDir(b) then false
    else if col == 1 then NumBefore(desc, a.size, b.size)
    else if col == 2 then NumBefore(desc, a.modified, b.modified)
    else if col == 3 then TextBefore(desc, a.modeStr, b.modeStr)
    else if col == 4 then TextBefore(desc, a.owner, b.owner)
    else if col == 5 then TextBefore(desc, a.group, b.group)
    else if |a.name| > 0 && |b.name| > 0 && a.name[0] == '.' && b.name[0] != '.' then true
    else if |a.name| > 0 && |b.name| > 0 && a.name[0] != '.' && b.name[0] == '.' then false
    else TextBefore(desc, a.name, b.name)
  }

  /** The comparator says a `..` entry goes before another `..` entry, and before itself. */
  lemma CompareNotIrreflexive(col: int, desc: bool, e: DirEntry)
    requires e.name == ".."
    ensures Compare(col, desc, e, e)
  {
  }

  /** The comparator without its one reflexive pair: the order the sorted list follows. */
  predicate Before(col: int, desc: bool, a: DirEntry, b: DirEntry)
  {
    !(a.name == ".." && b.name == "..") && Compare(col, desc, a, b)
  }

  // ---------------------------------------------------------------------------
  // `Before` is a strict weak order
  // ---------------------------------------------------------------------------

  /** A sort key; keys compare lexicographically, the text part by `TextBefore`. */
  datatype Key = Key(major: int, num: int, text: string)

  predicate KeyBefore(desc: bool, x: Key, y: Key)
  {
    x.major < y.major
    || (x.major == y.major && (x.num < y.num || (x.num == y.num && TextBefore(desc, x.text, y.text))))
  }

  /**
   * Where a name falls on the name column: an empty name comes before hidden
   * and other names when comparing with `<` and after them with `>`, hidden
   * names before the others either way.
   */
  function NameRank(desc: bool, name: string): int
  {
    if name == "" then (if desc then 0 else 3)
    else if name[0] == '.' then 1
    else 2
  }

  function Signed(desc: bool, v: nat): int
  {
    if desc then v as int else -(v as int)
  }

  /** The key of an entry under column `col`. */
  function KeyOf(col: int, desc: bool, e: DirEntry): Key
  {
    if e.name == ".." then Key(0, 0, "")
    else
      var major := 8 + (if IsDir(e) then 0 else 4) + (if NameColumn(col) then NameRank(desc, e.name) else 0);
      var num := if col == 1 then Signed(desc, e.size) else if col == 2 then Signed(desc, e.modified) else 0;
      var text :=
        if col == 3 then e.modeStr else if col == 4 then e.owner else if col == 5 then e.group
        else if NameColumn(col) then e.name else "";
      Key(major, num, text)
  }

  lemma TextBeforeStrictWeak(desc: bool, a: string, b: string, c: string)
    ensures TextBefore(desc, a, b) ==> !TextBefore(desc, b, a)
    ensures !TextBefore(desc, a, b) && !TextBefore(desc, b, c) ==> !TextBefore(desc, a, c)
  {
    if TextBefore(desc, a, b) {
      if desc { LessAsymmetric(a, b); } else { LessAsymmetric(b, a); }
    }
    if !TextBefore(desc, a, b) && !TextBefore(desc, b, c) && TextBefore(desc, a, c) {
      LessTotal(a, b);
      LessTotal(b, c);
      if desc {
        if a != b && b != c {
          LessTransitive(c, b, a);
          LessAsymmetric(a, c);
        }
      } else {
        if a != b && b != c {
          LessTransitive(a, b, c);
          LessAsymmetric(c, a);
        }
      }
    }
  }

  lemma KeyBeforeStrictWeak(desc: bool, x: Key, y: Key, z: Key)
    ensures !KeyBefore(desc, x, x)
    ensures KeyBefore(desc, x, y) ==> !KeyBefore(desc, y, x)
    ensures !KeyBefore(desc, x, y) && !KeyBefore(desc, y, z) ==> !KeyBefore(desc, x, z)
  {
    LessIrreflexive(x.text);
    TextBeforeStrictWeak(desc, x.text, y.text, z.text);
  }

  /** The comparator, `..` pair aside, is the lexicographic order of the keys. */
  lemma BeforeByKey(col: int, desc: bool, a: DirEntry, b: DirEntry)
    ensures Before(col, desc, a, b) == KeyBefore(desc, KeyOf(col, desc, a), KeyOf(col, desc, b))
  {
    if a.name != ".." && b.name != ".." && IsDir(a) == IsDir(b) && NameColumn(col) {
      if a.name == "" || b.name == "" {
        if a.name == "" && b.name == "" {
          LessIrreflexive(a.name);
        } else if a.name == "" {
          assert Less(a.name, b.name);
        } else {
          assert Less(b.name, a.name);
        }
      }
    }
  }

  /** `Before` is irreflexive and asymmetric, and its incomparability is transitive. */
  lemma BeforeStrictWeak(col: int, desc: bool, a: DirEntry, b: DirEntry, c: DirEntry)
    ensures !Before(col, desc, a, a)
    ensures Before(col, desc, a, b) ==> !Before(col, desc, b, a)
    ensures !Before(col, desc, a, b) && !Before(col, desc, b, c) ==> !Before(col, desc, a, c)
  {
    BeforeByKey(col, desc, a, a);
    BeforeByKey(col, desc, a, b);
    BeforeByKey(col, desc, b, a);
    BeforeByKey(col, desc, b, c);
    BeforeByKey(col, desc, a, c);
    KeyBeforeStrictWeak(desc, KeyOf(col, desc, a), KeyOf(col, desc, b), KeyOf(col, desc, c));
  }

  // ---------------------------------------------------------------------------
  // Sorting
  // ---------------------------------------------------------------------------

  /** No entry goes before one ahead of it. */
  predicate Sorted(col: int, desc: bool, s: seq<DirEntry>)
  {
    forall i, j :: 0 <= i < j < |s| ==> !Before(col, desc, s[j], s[i])
  }

  /** `x` placed ahead of the first entry that does not go before it. */
  function Insert(col: int, desc: bool, x: DirEntry, s: seq<DirEntry>): (r: seq<DirEntry>)
    ensures multiset(r) == multiset(s) + multiset{x}
    decreases |s|
  {
    if s == [] then [x]
    else if Before(col, desc, s[0], x) then
      assert s == [s[0]] + s[1..];
      [s[0]] + Insert(col, desc, x, s[1..])
    else [x] + s
  }

  /** Inserting into a sorted list keeps it sorted. */
  lemma {:induction false} InsertSorted(col: int, desc: bool, x: DirEntry, s: seq<DirEntry>)
    requires Sorted(col, desc, s)
    ensures Sorted(col, desc, Insert(col, desc, x, s))
    decreases |s|
  {
    if s == [] {
    } else if Before(col, desc, s[0], x) {
      assert Sorted(col, desc, s[1..]);
      InsertSorted(col, desc, x, s[1..]);
      InsertBehindHead(col, desc, x, s);
    } else {
      InsertAtHead(col, desc, x, s);
    }
  }

  /** An entry that does not go after the head of a sorted list can go in front of it. */
  lemma InsertAtHead(col: int, desc: bool, x: DirEntry, s: seq<DirEntry>)
    requires Sorted(col, desc, s) && s != [] && !Before(col, desc, s[0], x)
    ensures Sorted(col, desc, [x] + s)
  {
    forall j | 0 < j < |s|
      ensures !Before(col, desc, s[j], x)
    {
      BeforeStrictWeak(col, desc, s[j], s[0], x);
    }
  }

  /** Inserting behind the head of a sorted list keeps the head in front. */
  lemma InsertBehindHead(col: int, desc: bool, x: DirEntry, s: seq<DirEntry>)
    requires Sorted(col, desc, s) && s != [] && Before(col, desc, s[0], x)
    requires Sorted(col, desc, Insert(col, desc, x, s[1..]))
    ensures Sorted(col, desc, [s[0]] + Insert(col, desc, x, s[1..]))
  {
    var t := Insert(col, desc, x, s[1..]);
    forall j | 0 <= j < |t|
      ensures !Before(col, desc, t[j], s[0])
    {
      assert t[j] in multiset(t);
      if t[j] == x {
        BeforeStrictWeak(col, desc, s[0], x, x);
      } else {
        assert t[j] in multiset(s[1..]);
        var k :| 1 <= k < |s| && s[k] == t[j];
      }
    }
    var r := [s[0]] + t;
    forall i, j | 0 <= i < j < |r|
      ensures !Before(col, desc, r[j], r[i])
    {
      if i > 0 {
        assert r[i] == t[i - 1] && r[j] == t[j - 1];
      } else {
        assert r[j] == t[j - 1];
      }
    }
  }

  /** The sorted directory list: a sorted permutation of the input. */
  function Sort(col: int, desc: bool, s: seq<DirEntry>): (r: seq<DirEntry>)
    ensures multiset(r) == multiset(s) && |r| == |s|
    decreases |s|
  {
    if s == [] then []
    else
      assert s == [s[0]] + s[1..];
      Insert(col, desc, s[0], Sort(col, desc, s[1..]))
  }

  /** In the sorted list no entry goes before one ahead of it. */
  lemma {:induction false} SortSorts(col: int, desc: bool, s: seq<DirEntry>)
    ensures Sorted(col, desc, Sort(col, desc, s))
    decreases |s|
  {
    if s != [] {
      SortSorts(col, desc, s[1..]);
      InsertSorted(col, desc, s[0], Sort(col, desc, s[1..]));
    }
  }

  // ---------------------------------------------------------------------------
  // What a sorted list looks like
  // ---------------------------------------------------------------------------

  /** A `..` entry is ahead of every other entry. */
  lemma DotDotFirst(col: int, desc: bool, s: seq<DirEntry>, i: int, j: int)
    requires Sorted(col, desc, s) && 0 <= i < |s| && 0 <= j < |s|
    requires s[j].name == ".." && s[i].name != ".."
    ensures j < i
  {
  }

  /** Directories are ahead of files. */
  lemma DirectoriesFirst(col: int, desc: bool, s: seq<DirEntry>, i: int, j: int)
    requires Sorted(col, desc, s) && 0 <= i < |s| && 0 <= j < |s|
    requires s[i].name != ".." && s[j].name != ".."
    requires IsDir(s[j]) && !IsDir(s[i])
    ensures j < i
  {
  }

  /** On the size column, `sort_desc_ == false` (the default) puts larger files first. */
  lemma DefaultIsDescending(s: seq<DirEntry>, i: int, j: int)
    requires Sorted(1, false, s) && 0 <= i < j < |s|
    requires s[i].name != ".." && s[j].name != ".." && IsDir(s[i]) == IsDir(s[j])
    ensures s[i].size >= s[j].size
  {
  }

  /** On the name column a hidden name is ahead of a visible one whichever the direction. */
  lemma HiddenFirst(col: int, desc: bool, s: seq<DirEntry>, i: int, j: int)
    requires NameColumn(col) && Sorted(col, desc, s) && 0 <= i < |s| && 0 <= j < |s|
    requires s[i].name != ".." && s[j].name != ".." && IsDir(s[i]) == IsDir(s[j])
    requires Hidden(s[j].name) && s[i].name != "" && !Hidden(s[i].name)
    ensures j < i
  {
  }

  // ---------------------------------------------------------------------------
  // Every sorted permutation
  // ---------------------------------------------------------------------------

  /** Neither entry goes before the other. */
  predicate Equivalent(col: int, desc: bool, a: DirEntry, b: DirEntry)
  {
    !Before(col, desc, a, b) && !Before(col, desc, b, a)
  }

  lemma EquivalentTransitive(col: int, desc: bool, a: DirEntry, b: DirEntry, c: DirEntry)
    requires Equivalent(col, desc, a, b) && Equivalent(col, desc, b, c)
    ensures Equivalent(col, desc, a, c)
  {
    BeforeStrictWeak(col, desc, a, b, c);
    BeforeStrictWeak(col, desc, c, b, a);
  }

  /** Taking one entry out of a sorted list leaves it sorted. */
  lemma SortedRemove(col: int, desc: bool, t: seq<DirEntry>, m: int)
    requires Sorted(col, desc, t) && 0 <= m < |t|
    ensures Sorted(col, desc, t[..m] + t[m + 1..])
  {
    var r := t[..m] + t[m + 1..];
    forall i, j | 0 <= i < j < |r|
      ensures !Before(col, desc, r[j], r[i])
    {
      var i' := if i < m then i else i + 1;
      var j' := if j < m then j else j + 1;
      assert r[i] == t[i'] && r[j] == t[j'];
    }
  }

  /**
   * `std::sort` may return any sorted permutation. Any two of them agree
   * position by position up to entries the comparator cannot tell apart; in
   * particular sorting an already sorted list, or sorting twice, leaves every
   * position holding an equivalent entry.
   */
  lemma {:induction false} SortedPermutationsAgree(col: int, desc: bool, s: seq<DirEntry>, t: seq<DirEntry>)
    requires Sorted(col, desc, s) && Sorted(col, desc, t) && multiset(s) == multiset(t)
    ensures |s| == |t|
    ensures forall i :: 0 <= i < |s| ==> Equivalent(col, desc, s[i], t[i])
    decreases |s|
  {
    assert |s| == |multiset(s)| == |multiset(t)| == |t|;
    if s != [] {
      var x := s[0];
      assert x in multiset(t);
      var m :| 0 <= m < |t| && t[m] == x;
      var t' := t[..m] + t[m + 1..];
      RemoveMatching(s, t, m);
      SortedRemove(col, desc, t, m);
      SortedRemove(col, desc, s, 0);
      SortedPermutationsAgree(col, desc, s[1..], t');
      AheadOfHeadEquivalent(col, desc, s, t, m);
      CombineAgree(col, desc, s, t, m);
    }
  }

  /** The last step of `SortedPermutationsAgree`: the head's agreement and the rest's give the whole list's. */
  lemma CombineAgree(col: int, desc: bool, s: seq<DirEntry>, t: seq<DirEntry>, m: int)
    requires |s| == |t| && 0 <= m < |t|
    requires forall i :: 0 <= i < |s| - 1 ==> Equivalent(col, desc, s[1..][i], (t[..m] + t[m + 1..])[i])
    requires forall j :: 0 <= j <= m ==> Equivalent(col, desc, t[j], s[0])
    ensures forall i :: 0 <= i < |s| ==> Equivalent(col, desc, s[i], t[i])
  {
    var t' := t[..m] + t[m + 1..];
    forall i | 0 <= i < |s|
      ensures Equivalent(col, desc, s[i], t[i])
    {
      if i == 0 {
      } else if i - 1 >= m {
        assert s[1..][i - 1] == s[i] && t'[i - 1] == t[i];
      } else {
        assert s[1..][i - 1] == s[i] && t'[i - 1] == t[i - 1];
        EquivalentTransitive(col, desc, s[i], t[i - 1], s[0]);
        EquivalentTransitive(col, desc, s[i], s[0], t[i]);
      }
    }
  }

  /** Taking the head of `s` and its copy at `m` in a permutation `t` out of both leaves permutations. */
  lemma RemoveMatching(s: seq<DirEntry>, t: seq<DirEntry>, m: int)
    requires multiset(s) == multiset(t) && s != [] && 0 <= m < |t| && t[m] == s[0]
    ensures multiset(s[1..]) == multiset(t[..m] + t[m + 1..])
  {
    assert t == t[..m] + [t[m]] + t[m + 1..];
    assert multiset(t) == multiset(t[..m]) + multiset{t[m]} + multiset(t[m + 1..]);
    assert s == [s[0]] + s[1..];
    assert multiset(s) == multiset{s[0]} + multiset(s[1..]);
    assert multiset(t[..m] + t[m + 1..]) == multiset(t[..m]) + multiset(t[m + 1..]);
    assert multiset(s[1..]) == multiset(t) - multiset{s[0]};
  }

  /** Where the head of sorted `s` sits in a sorted permutation `t`, every entry up to it is equivalent to it. */
  lemma AheadOfHeadEquivalent(col: int, desc: bool, s: seq<DirEntry>, t: seq<DirEntry>, m: int)
    requires Sorted(col, desc, s) && Sorted(col, desc, t) && multiset(s) == multiset(t)
    requires s != [] && 0 <= m < |t| && t[m] == s[0]
    ensures forall j :: 0 <= j <= m ==> Equivalent(col, desc, t[j], s[0])
  {
    forall j | 0 <= j <= m
      ensures Equivalent(col, desc, t[j], s[0])
    {
      BeforeStrictWeak(col, desc, s[0], s[0], s[0]);
      if j < m {
        assert !Before(col, desc, t[m], t[j]);
      }
      assert t[j] in multiset(s);
      var k :| 0 <= k < |s| && s[k] == t[j];
      if k > 0 {
        assert !Before(col, desc, s[k], s[0]);
      }
    }
  }

  /** Sorting a sorted list changes nothing (for this model's insertion sort; see `SortedPermutationsAgree` for `std::sort`). */
  lemma {:induction false} SortSortedIsIdentity(col: int, desc: bool, s: seq<DirEntry>)
    requires Sorted(col, desc, s)
    ensures Sort(col, desc, s) == s
    decreases |s|
  {
    if s != [] {
      assert Sorted(col, desc, s[1..]);
      SortSortedIsIdentity(col, desc, s[1..]);
      if |s| > 1 {
        assert !Before(col, desc, s[1], s[0]);
      }
    }
  }

  /** Sorting twice is sorting once (for this model's insertion sort). */
  lemma SortIdempotent(col: int, desc: bool, s: seq<DirEntry>)
    ensures Sort(col, desc, Sort(col, desc, s)) == Sort(col, desc, s)
  {
    SortSorts(col, desc, s);
    SortSortedIsIdentity(col, desc, Sort(col, desc, s));
  }
}
