/** What the gallery shows: `blobList` narrowed by the search box, sorted by
    the chosen option, then split into the image, video, audio and document
    lists. */
module Query {
  import opened Text
  import opened Records
  import opened Seqs
  import opened Classify

  // ---------------------------------------------------------------- search

  /** The search test: the lower-cased name contains the lower-cased term. */
  predicate Matches(r: BlobRecord, term: string)
  {
    Contains(Lower(r.name), Lower(term))
  }

  function MatchesTerm(term: string): BlobRecord -> bool
  {
    (r: BlobRecord) => Matches(r, term)
  }

  /** `blobList.filter(...)`: a fresh sequence of the matching records. */
  function Filter(files: seq<BlobRecord>, term: string): seq<BlobRecord>
  {
    Keep(files, MatchesTerm(term))
  }

  /** The filter keeps exactly the matching records, each as often as it
      occurs, and in their original order. */
  lemma FilterExact(files: seq<BlobRecord>, term: string)
    ensures Subsequence(Filter(files, term), files)
    ensures forall x :: multiset(Filter(files, term))[x] == if Matches(x, term) then multiset(files)[x] else 0
  {
    KeepSubsequence(files, MatchesTerm(term));
    forall x ensures multiset(Filter(files, term))[x] == if Matches(x, term) then multiset(files)[x] else 0 {
      KeepCount(files, MatchesTerm(term), x);
    }
  }

  /** An empty search box shows every record. */
  lemma FilterEmptyTerm(files: seq<BlobRecord>)
    ensures Filter(files, "") == files
  {
    forall i | 0 <= i < |files| ensures MatchesTerm("")(files[i]) {
      ContainsEmpty(Lower(files[i].name));
    }
    KeepAll(files, MatchesTerm(""));
  }

  // ------------------------------------------------------------------ sort

  datatype SortOption = SizeAsc | SizeDesc | DateAsc | DateDesc

  /** The value of the sort selector; anything unrecognised sorts newest first. */
  function ParseSortOption(s: string): (o: SortOption)
    ensures o == DateDesc <==> s != "size-asc" && s != "size-desc" && s != "date-asc"
    ensures s == "size-asc" ==> o == SizeAsc
    ensures s == "size-desc" ==> o == SizeDesc
    ensures s == "date-asc" ==> o == DateAsc
  {
    if s == "size-asc" then SizeAsc
    else if s == "size-desc" then SizeDesc
    else if s == "date-asc" then DateAsc
    else DateDesc
  }

  /** The field an option sorts by. */
  function SortKey(o: SortOption, r: BlobRecord): int
  {
    if o == SizeAsc || o == SizeDesc then r.size else r.lastModified
  }

  predicate Ascending(o: SortOption)
  {
    o == SizeAsc || o == DateAsc
  }

  /** The position along the sort order: the key, negated when descending. */
  function Rank(o: SortOption, r: BlobRecord): int
  {
    if Ascending(o) then SortKey(o, r) else -SortKey(o, r)
  }

  /** The comparator each option passes to `Array.prototype.sort`. */
  function Compare(o: SortOption, a: BlobRecord, b: BlobRecord): (d: int)
    ensures d == Rank(o, a) - Rank(o, b)
  {
    match o
    case SizeAsc => a.size - b.size
    case SizeDesc => b.size - a.size
    case DateAsc => a.lastModified - b.lastModified
    case DateDesc => b.lastModified - a.lastModified
  }

  function RankAt(o: SortOption, s: seq<BlobRecord>, i: nat): int
    requires i < |s|
  {
    Rank(o, s[i])
  }

  /** No pair is out of order for the comparator. */
  predicate Sorted(o: SortOption, s: seq<BlobRecord>)
  {
    forall i: nat, j: nat :: i < j < |s| ==> RankAt(o, s, i) <= RankAt(o, s, j)
  }

  lemma SortedIff(o: SortOption, s: seq<BlobRecord>)
    ensures Sorted(o, s) <==> forall i, j :: 0 <= i < j < |s| ==> Rank(o, s[i]) <= Rank(o, s[j])
  {
    assert forall i :: 0 <= i < |s| ==> RankAt(o, s, i) == Rank(o, s[i]);
  }

  /** Sorted means non-decreasing keys for an "-asc" option and
      non-increasing keys for a "-desc" one. */
  lemma SortedMeaning(o: SortOption, s: seq<BlobRecord>)
    ensures Sorted(o, s) <==>
      if Ascending(o) then forall i, j :: 0 <= i < j < |s| ==> SortKey(o, s[i]) <= SortKey(o, s[j])
      else forall i, j :: 0 <= i < j < |s| ==> SortKey(o, s[i]) >= SortKey(o, s[j])
  {
    SortedIff(o, s);
  }

  function KeyIs(o: SortOption, k: int): BlobRecord -> bool
  {
    (r: BlobRecord) => SortKey(o, r) == k
  }

  /** The records sharing sort key `k`, in the order they occur in `s`. */
  function Ties(o: SortOption, s: seq<BlobRecord>, k: int): seq<BlobRecord>
  {
    Keep(s, KeyIs(o, k))
  }

  /** Stable insertion: `x` goes after every record that does not compare
      strictly greater than it. */
  function Insert(o: SortOption, x: BlobRecord, t: seq<BlobRecord>): seq<BlobRecord>
  {
    if t == [] then [x]
    else if Compare(o, x, t[0]) < 0 then [x] + t
    else [t[0]] + Insert(o, x, t[1..])
  }

  /** The order a stable sort leaves `s` in. */
  function SortSpec(o: SortOption, s: seq<BlobRecord>): seq<BlobRecord>
  {
    if s == [] then [] else Insert(o, s[|s| - 1], SortSpec(o, s[..|s| - 1]))
  }

  lemma {:induction false} InsertPermutes(o: SortOption, x: BlobRecord, t: seq<BlobRecord>)
    ensures multiset(Insert(o, x, t)) == multiset(t) + multiset{x}
  {
    if t != [] && Compare(o, x, t[0]) >= 0 {
      InsertPermutes(o, x, t[1..]);
      assert t == [t[0]] + t[1..];
    }
  }

  lemma {:induction false} InsertSorted(o: SortOption, x: BlobRecord, t: seq<BlobRecord>)
    requires Sorted(o, t)
    ensures Sorted(o, Insert(o, x, t))
  {
    if t == [] || Compare(o, x, t[0]) < 0 {
      assert Insert(o, x, t) == [x] + t;
      SortedCons(o, x, t);
    } else {
      var tail := t[1..];
      var rest := Insert(o, x, tail);
      SortedTail(o, t);
      InsertSorted(o, x, tail);
      if tail != [] && Compare(o, x, tail[0]) >= 0 {
        assert rest[0] == tail[0] == t[1];
        SortedIff(o, t);
      }
      SortedCons(o, t[0], rest);
    }
  }

  /** A record ranked no higher than the head of a sorted sequence can lead it. */
  lemma SortedCons(o: SortOption, y: BlobRecord, s: seq<BlobRecord>)
    requires Sorted(o, s) && (s == [] || Rank(o, y) <= Rank(o, s[0]))
    ensures Sorted(o, [y] + s)
  {
    SortedIff(o, s);
    SortedIff(o, [y] + s);
  }

  lemma {:induction false} InsertTies(o: SortOption, x: BlobRecord, t: seq<BlobRecord>, k: int)
    requires Sorted(o, t)
    ensures Ties(o, Insert(o, x, t), k) == Ties(o, t, k) + (if SortKey(o, x) == k then [x] else [])
  {
    if t == [] || Compare(o, x, t[0]) < 0 {
      assert Insert(o, x, t) == [x] + t;
      TiesCons(o, x, t, k);
      if SortKey(o, x) == k && t != [] {
        RanksAbove(o, t, Rank(o, x));
        forall i | 0 <= i < |t| ensures !KeyIs(o, k)(t[i]) {
        }
        KeepNone(t, KeyIs(o, k));
      }
    } else {
      var rest := Insert(o, x, t[1..]);
      SortedTail(o, t);
      InsertTies(o, x, t[1..], k);
      TiesCons(o, t[0], rest, k);
      TiesCons(o, t[0], t[1..], k);
      assert t == [t[0]] + t[1..];
    }
  }

  /** Every record of a sorted sequence ranks at least as high as its first. */
  lemma RanksAbove(o: SortOption, t: seq<BlobRecord>, r: int)
    requires Sorted(o, t) && t != [] && r < Rank(o, t[0])
    ensures forall i :: 0 <= i < |t| ==> r < Rank(o, t[i])
  {
    SortedIff(o, t);
  }

  lemma SortedTail(o: SortOption, t: seq<BlobRecord>)
    requires Sorted(o, t) && t != []
    ensures Sorted(o, t[1..])
  {
    SortedIff(o, t);
    SortedIff(o, t[1..]);
  }

  /** The sorted order is a permutation of the input, ordered by the
      option, and records with equal keys keep their input order (the
      stability `Array.prototype.sort` guarantees). */
  lemma {:induction false} SortSpecCorrect(o: SortOption, s: seq<BlobRecord>)
    ensures multiset(SortSpec(o, s)) == multiset(s)
    ensures Sorted(o, SortSpec(o, s))
    ensures forall k :: Ties(o, SortSpec(o, s), k) == Ties(o, s, k)
  {
    if s != [] {
      var init, x := s[..|s| - 1], s[|s| - 1];
      assert s == init + [x];
      SortSpecCorrect(o, init);
      InsertPermutes(o, x, SortSpec(o, init));
      InsertSorted(o, x, SortSpec(o, init));
      forall k ensures Ties(o, SortSpec(o, s), k) == Ties(o, s, k) {
        InsertTies(o, x, SortSpec(o, init), k);
        KeepAppend(init, [x], KeyIs(o, k));
      }
    }
  }

  lemma TiesCons(o: SortOption, y: BlobRecord, s: seq<BlobRecord>, k: int)
    ensures Ties(o, [y] + s, k) == (if SortKey(o, y) == k then [y] else []) + Ties(o, s, k)
  {
    assert ([y] + s)[1..] == s;
  }

  lemma TiesOfFirst(o: SortOption, c: seq<BlobRecord>)
    requires c != []
    ensures Ties(o, c, SortKey(o, c[0])) != [] && Ties(o, c, SortKey(o, c[0]))[0] == c[0]
  {
    TiesCons(o, c[0], c[1..], SortKey(o, c[0]));
    assert c == [c[0]] + c[1..];
  }

  lemma SameFirst(o: SortOption, a: seq<BlobRecord>, b: seq<BlobRecord>)
    requires a != [] && b != [] && Sorted(o, a) && Sorted(o, b)
    requires forall k :: Ties(o, a, k) == Ties(o, b, k)
    ensures a[0] == b[0]
  {
    SortedIff(o, a);
    SortedIff(o, b);
    TiesOfFirst(o, a);
    TiesOfFirst(o, b);
    KeepSound(b, KeyIs(o, SortKey(o, a[0])));
    KeepSound(a, KeyIs(o, SortKey(o, b[0])));
    assert Rank(o, a[0]) == Rank(o, b[0]);
  }

  lemma SameTailTies(o: SortOption, a: seq<BlobRecord>, b: seq<BlobRecord>, k: int)
    requires a != [] && b != [] && a[0] == b[0]
    requires Ties(o, a, k) == Ties(o, b, k)
    ensures Ties(o, a[1..], k) == Ties(o, b[1..], k)
  {
    assert a == [a[0]] + a[1..] && b == [b[0]] + b[1..];
    TiesCons(o, a[0], a[1..], k);
    TiesCons(o, b[0], b[1..], k);
    var head := if SortKey(o, a[0]) == k then [a[0]] else [];
    assert Ties(o, a, k)[|head|..] == Ties(o, a[1..], k);
    assert Ties(o, b, k)[|head|..] == Ties(o, b[1..], k);
  }

  /** Two sorted sequences that agree on every group of equal keys are equal. */
  lemma {:induction false} SortedTiesDetermine(o: SortOption, a: seq<BlobRecord>, b: seq<BlobRecord>)
    requires Sorted(o, a) && Sorted(o, b)
    requires forall k :: Ties(o, a, k) == Ties(o, b, k)
    ensures a == b
    decreases |a|
  {
    if a == [] && b != [] {
      TiesOfFirst(o, b);
    } else if a != [] && b == [] {
      TiesOfFirst(o, a);
    } else if a != [] {
      SameFirst(o, a, b);
      forall k ensures Ties(o, a[1..], k) == Ties(o, b[1..], k) {
        SameTailTies(o, a, b, k);
      }
      SortedIff(o, a);
      SortedIff(o, b);
      SortedIff(o, a[1..]);
      SortedIff(o, b[1..]);
      SortedTiesDetermine(o, a[1..], b[1..]);
      assert a == [a[0]] + a[1..] && b == [b[0]] + b[1..];
    }
  }

  /** Any sorted order that keeps each group of equal keys in input order
      is the model's: the result of a stable sort does not depend on the
      algorithm behind it. */
  lemma StableSortUnique(o: SortOption, s: seq<BlobRecord>, r: seq<BlobRecord>)
    requires Sorted(o, r)
    requires forall k :: Ties(o, r, k) == Ties(o, s, k)
    ensures r == SortSpec(o, s)
  {
    SortSpecCorrect(o, s);
    SortedTiesDetermine(o, r, SortSpec(o, s));
  }

  /** Where insertion puts `x` in a sorted `t`: after the first `j` records,
      which do not rank above it, and before the rest, which do. */
  lemma {:induction false} InsertAt(o: SortOption, x: BlobRecord, t: seq<BlobRecord>, j: nat)
    requires j <= |t|
    requires forall m :: 0 <= m < j ==> Rank(o, t[m]) <= Rank(o, x)
    requires forall m :: j <= m < |t| ==> Rank(o, x) < Rank(o, t[m])
    ensures Insert(o, x, t) == t[..j] + [x] + t[j..]
  {
    if j > 0 {
      InsertAt(o, x, t[1..], j - 1);
      assert t[..j] == [t[0]] + t[1..][..j - 1];
    }
  }

  /** One step of the sort: moves `a[i]` left past the records that
      compare strictly greater than it, into the sorted prefix `a[..i]`. */
  method InsertInto(o: SortOption, a: array<BlobRecord>, i: nat, ghost t: seq<BlobRecord>)
    requires i < a.Length && t == a[..i] && Sorted(o, t)
    modifies a
    ensures a[..i + 1] == Insert(o, old(a[i]), t)
    ensures a[i + 1..] == old(a[i + 1..])
  {
    var x := a[i];
    var j := i;
    while j > 0 && Compare(o, x, a[j - 1]) < 0
      invariant 0 <= j <= i
      invariant forall m :: 0 <= m < j ==> a[m] == t[m]
      invariant forall m :: j < m <= i ==> a[m] == t[m - 1]
      invariant forall m :: i < m < a.Length ==> a[m] == old(a[m])
      invariant forall m :: j <= m < i ==> Rank(o, x) < Rank(o, t[m])
    {
      a[j] := a[j - 1];
      j := j - 1;
    }
    ghost var shifted := a[..];
    a[j] := x;
    assert a[..] == shifted[j := x];
    InsertShape(o, shifted, t, x, i, j);
    assert x == old(a[i]);
  }

  /** The array after the shifting loop, once `x` is written at `j`, holds
      `Insert(o, x, t)` in its first `i + 1` places. */
  lemma InsertShape(o: SortOption, shifted: seq<BlobRecord>, t: seq<BlobRecord>, x: BlobRecord, i: nat, j: nat)
    requires i < |shifted| && |t| == i && j <= i && Sorted(o, t)
    requires forall m :: 0 <= m < j ==> shifted[m] == t[m]
    requires forall m :: j < m <= i ==> shifted[m] == t[m - 1]
    requires forall m :: j <= m < i ==> Rank(o, x) < Rank(o, t[m])
    requires j > 0 ==> Rank(o, t[j - 1]) <= Rank(o, x)
    ensures shifted[j := x][..i + 1] == Insert(o, x, t)
  {
    SortedIff(o, t);
    InsertAt(o, x, t, j);
    var r := shifted[j := x][..i + 1];
    assert r == t[..j] + [x] + t[j..];
  }

  /** `sortFiles`: sorts `a` in place, stably, by the option's comparator. */
  method SortInPlace(o: SortOption, a: array<BlobRecord>)
    modifies a
    ensures a[..] == SortSpec(o, old(a[..]))
    ensures multiset(a[..]) == multiset(old(a[..])) && Sorted(o, a[..])
  {
    ghost var input := a[..];
    var i := 0;
    while i < a.Length
      invariant 0 <= i <= a.Length
      invariant a[..i] == SortSpec(o, input[..i])
      invariant a[i..] == input[i..]
    {
      SortSpecCorrect(o, input[..i]);
      InsertInto(o, a, i, a[..i]);
      assert input[..i + 1] == input[..i] + [input[i]];
      i := i + 1;
    }
    assert input[..a.Length] == input;
    SortSpecCorrect(o, input);
  }

  /** `filteredList`: the matching records of `files`, sorted by `option`.
      The sort works on a fresh array, so `files` itself is never reordered. */
  method FilteredList(files: seq<BlobRecord>, term: string, option: string) returns (r: seq<BlobRecord>)
    ensures r == SortSpec(ParseSortOption(option), Filter(files, term))
  {
    var kept := Filter(files, term);
    var a := new BlobRecord[|kept|](i requires 0 <= i < |kept| => kept[i]);
    assert a[..] == kept;
    SortInPlace(ParseSortOption(option), a);
    r := a[..];
  }

  // ------------------------------------------------------------ categories

  function InCategory(c: Category): BlobRecord -> bool
  {
    (r: BlobRecord) => Bucket(r.name) == Some(c)
  }

  /** The `forEach` that fills `categorizedFiles`: each record goes to the
      list its name's bucket names, or to none. */
  method Categorize(files: seq<BlobRecord>)
    returns (images: seq<BlobRecord>, videos: seq<BlobRecord>, audios: seq<BlobRecord>, documents: seq<BlobRecord>)
    ensures images == Keep(files, InCategory(Image))
    ensures videos == Keep(files, InCategory(Video))
    ensures audios == Keep(files, InCategory(Audio))
    ensures documents == Keep(files, InCategory(Document))
  {
    images, videos, audios, documents := [], [], [], [];
    var i := 0;
    while i < |files|
      invariant 0 <= i <= |files|
      invariant images == Keep(files[..i], InCategory(Image))
      invariant videos == Keep(files[..i], InCategory(Video))
      invariant audios == Keep(files[..i], InCategory(Audio))
      invariant documents == Keep(files[..i], InCategory(Document))
    {
      var file := files[i];
      var bucket := Bucket(file.name);
      assert files[..i + 1] == files[..i] + [file];
      KeepSnoc(files[..i], file, InCategory(Image));
      KeepSnoc(files[..i], file, InCategory(Video));
      KeepSnoc(files[..i], file, InCategory(Audio));
      KeepSnoc(files[..i], file, InCategory(Document));
      if bucket == Some(Image) {
        images := images + [file];
      } else if bucket == Some(Video) {
        videos := videos + [file];
      } else if bucket == Some(Audio) {
        audios := audios + [file];
      } else if bucket == Some(Document) {
        documents := documents + [file];
      }
      i := i + 1;
    }
    assert files[..i] == files;
  }

  /** Each record lands in exactly one of the four lists when its name has a
      known ending, and in none otherwise. */
  lemma CategoriesPartition(files: seq<BlobRecord>, x: BlobRecord)
    ensures multiset(Keep(files, InCategory(Image)))[x] + multiset(Keep(files, InCategory(Video)))[x]
          + multiset(Keep(files, InCategory(Audio)))[x] + multiset(Keep(files, InCategory(Document)))[x]
         == if Bucket(x.name).Some? then multiset(files)[x] else 0
  {
    KeepCount(files, InCategory(Image), x);
    KeepCount(files, InCategory(Video), x);
    KeepCount(files, InCategory(Audio), x);
    KeepCount(files, InCategory(Document), x);
  }
}
