/** The canonical volume structure of a manuscript: chapters in global order, one run per volume. */
module ManuscriptVolumes {
  import opened Wrappers
  import opened Ordering
  import opened ChapterLinks

  datatype Chapter = Chapter(number: int, meta: string)

  datatype Volume = Volume(id: string, order: int, title: string, chapters: seq<Chapter>)

  /** A chapter with the volume it stands in. */
  datatype Entry = Entry(chapter: Chapter, id: string, order: int, title: string)

  datatype ManuscriptError = Corrupt

  function LinkOf(e: Entry): Link { Link(e.chapter.number, e.id, e.order, e.title) }

  function Links(es: seq<Entry>): (r: seq<Link>)
    ensures |r| == |es|
  {
    seq(|es|, i requires 0 <= i < |es| => LinkOf(es[i]))
  }

  function EntryKey(e: Entry): Key { [[e.chapter.number]] }

  function VolumeEntries(v: Volume): (r: seq<Entry>)
    ensures |r| == |v.chapters|
  {
    seq(|v.chapters|, i requires 0 <= i < |v.chapters| => Entry(v.chapters[i], v.id, v.order, v.title))
  }

  function Entries(vs: seq<Volume>): seq<Entry> {
    if vs == [] then [] else Entries(vs[..|vs| - 1]) + VolumeEntries(vs[|vs| - 1])
  }

  predicate NoneEmpty(vs: seq<Volume>) { forall v | v in vs :: v.chapters != [] }

  /** Appends a chapter to the last run, or starts a run for its volume. */
  function Grow(runs: seq<Volume>, e: Entry): seq<Volume> {
    var n := |runs|;
    if n > 0 && runs[n - 1].id == e.id then runs[..n - 1] + [runs[n - 1].(chapters := runs[n - 1].chapters + [e.chapter])]
    else runs + [Volume(e.id, e.order, e.title, [e.chapter])]
  }

  function Runs(es: seq<Entry>): seq<Volume> {
    if es == [] then [] else Grow(Runs(es[..|es| - 1]), es[|es| - 1])
  }

  function Canonicalized(vs: seq<Volume>): Result<seq<Volume>, ManuscriptError> {
    if NoneEmpty(vs) && Consistent(Links(Entries(vs))) then Success(Runs(SortBy(Entries(vs), EntryKey))) else Failure(Corrupt)
  }

  // ----- sorting links and entries alike -----

  lemma {:induction false} InsertLinks(es: seq<Entry>, e: Entry)
    ensures Links(Insert(es, e, EntryKey)) == Insert(Links(es), LinkOf(e), NumberKey)
  {
    if es != [] && Less(EntryKey(e), EntryKey(es[|es| - 1])) {
      hide Less;
      var n := |es| - 1;
      InsertLinks(es[..n], e);
      assert Links(es)[..n] == Links(es[..n]);
      LinksAppend(Insert(es[..n], e, EntryKey), es[n]);
    } else {
      LinksAppend(es, e);
    }
  }

  lemma LinksAppend(es: seq<Entry>, e: Entry)
    ensures Links(es + [e]) == Links(es) + [LinkOf(e)]
  {
  }

  lemma {:induction false} SortLinks(es: seq<Entry>)
    ensures Links(SortBy(es, EntryKey)) == SortBy(Links(es), NumberKey)
  {
    if es != [] {
      hide Insert, LinkOf;
      var n := |es| - 1;
      SortLinks(es[..n]);
      assert Links(es)[..n] == Links(es[..n]);
      InsertLinks(SortBy(es[..n], EntryKey), es[n]);
    }
  }

  // ----- the method -----

  method CanonicalizeManuscriptVolumes(vs: seq<Volume>) returns (r: Result<seq<Volume>, ManuscriptError>)
    ensures r == Canonicalized(vs)
  {
    hide Consistent, SortBy, Runs, Grow, Ascending, NumbersDistinct;
    if !NoneEmpty(vs) {
      return Failure(Corrupt);
    }
    var linked := FlattenVolumes(vs);
    var ordered := ValidateAndSort(Links(linked));
    if ordered.Failure? {
      return Failure(Corrupt);
    }
    ghost var sorted := SortBy(linked, EntryKey);
    SortLinks(linked);
    NumbersAreDistinct(linked);
    var byNumber := IndexByNumber(linked);
    var runs: seq<Volume> := [];
    NoRuns();
    assert sorted[..0] == [];
    for i := 0 to |ordered.value|
      invariant runs == Runs(sorted[..i])
    {
      SortedEntry(linked, i);
      var e := byNumber[ordered.value[i].number];
      assert e == sorted[i];
      RunsStep(sorted, i);
      runs := Grow(runs, e);
    }
    assert sorted[..|sorted|] == sorted;
    r := Success(runs);
  }

  method FlattenVolumes(vs: seq<Volume>) returns (linked: seq<Entry>)
    ensures linked == Entries(vs)
  {
    linked := [];
    assert vs[..0] == [];
    for i := 0 to |vs|
      invariant linked == Entries(vs[..i])
    {
      assert vs[..i + 1][..i] == vs[..i];
      linked := linked + VolumeEntries(vs[i]);
    }
    assert vs[..|vs|] == vs;
  }

  predicate EntriesDistinct(es: seq<Entry>) { forall i, j | 0 <= i < j < |es| :: es[i].chapter.number != es[j].chapter.number }

  lemma NumbersAreDistinct(es: seq<Entry>)
    requires Consistent(Links(es))
    ensures EntriesDistinct(es)
  {
    hide AllAgree, NeverFalls, OrdersPositive;
    forall i, j | 0 <= i < j < |es|
      ensures es[i].chapter.number != es[j].chapter.number
    {
      assert Links(es)[i].number != Links(es)[j].number;
    }
  }

  method IndexByNumber(es: seq<Entry>) returns (byNumber: map<int, Entry>)
    requires EntriesDistinct(es)
    ensures forall e | e in es :: e.chapter.number in byNumber && byNumber[e.chapter.number] == e
  {
    byNumber := map[];
    for i := 0 to |es|
      invariant forall k | 0 <= k < i :: es[k].chapter.number in byNumber && byNumber[es[k].chapter.number] == es[k]
    {
      byNumber := byNumber[es[i].chapter.number := es[i]];
    }
  }

  lemma NoRuns()
    ensures Runs([]) == []
  {
  }

  lemma RunsStep(es: seq<Entry>, i: nat)
    requires i < |es|
    ensures Runs(es[..i + 1]) == Grow(Runs(es[..i]), es[i])
  {
    hide Grow;
    assert es[..i + 1][..i] == es[..i];
  }

  lemma SortedEntry(es: seq<Entry>, i: nat)
    requires i < |es|
    ensures SortBy(es, EntryKey)[i] in es
    ensures Links(SortBy(es, EntryKey))[i].number == SortBy(es, EntryKey)[i].chapter.number
  {
    hide SortBy, EntryKey;
    SortKeepsElements(es, EntryKey);
    assert SortBy(es, EntryKey)[i] in SortBy(es, EntryKey);
  }

  // ----- nothing lost -----

  lemma EntriesAppend(vs: seq<Volume>, v: Volume)
    ensures Entries(vs + [v]) == Entries(vs) + VolumeEntries(v)
  {
    assert (vs + [v])[..|vs|] == vs;
  }

  lemma MoreEntries(v: Volume, c: Chapter)
    ensures VolumeEntries(v.(chapters := v.chapters + [c])) == VolumeEntries(v) + [Entry(c, v.id, v.order, v.title)]
  {
  }

  lemma {:induction false} GrowEntries(runs: seq<Volume>, e: Entry)
    requires runs != [] && runs[|runs| - 1].id == e.id ==> runs[|runs| - 1].order == e.order && runs[|runs| - 1].title == e.title
    ensures Entries(Grow(runs, e)) == Entries(runs) + [e]
  {
    hide Entries;
    var n := |runs|;
    if n > 0 && runs[n - 1].id == e.id {
      var last := runs[n - 1];
      MoreEntries(last, e.chapter);
      EntriesAppend(runs[..n - 1], last);
      EntriesAppend(runs[..n - 1], last.(chapters := last.chapters + [e.chapter]));
      assert runs == runs[..n - 1] + [last];
    } else {
      EntriesAppend(runs, Volume(e.id, e.order, e.title, [e.chapter]));
    }
  }

  /** The last run is the last entry's volume. */
  predicate EndsWith(runs: seq<Volume>, es: seq<Entry>) {
    && (runs == [] <==> es == [])
    && (es != [] ==>
          var v, e := runs[|runs| - 1], es[|es| - 1];
          v.id == e.id && v.order == e.order && v.title == e.title)
  }

  lemma LinksAgreeOn(es: seq<Entry>, i: nat, j: nat)
    requires AllAgree(Links(es)) && i < |es| && j < |es|
    ensures Agree(LinkOf(es[i]), LinkOf(es[j]))
  {
    hide Agree;
    assert Links(es)[i] in Links(es) && Links(es)[j] in Links(es);
  }

  lemma AgreePrefix(es: seq<Entry>, n: nat)
    requires AllAgree(Links(es)) && n <= |es|
    ensures AllAgree(Links(es[..n]))
  {
    hide Agree;
    forall a, b | a in Links(es[..n]) && b in Links(es[..n])
      ensures Agree(a, b)
    {
      var i :| 0 <= i < n && Links(es[..n])[i] == a;
      var j :| 0 <= j < n && Links(es[..n])[j] == b;
      LinksAgreeOn(es, i, j);
    }
  }

  lemma GrowEnds(runs: seq<Volume>, es: seq<Entry>, e: Entry)
    requires EndsWith(runs, es) && NoneEmpty(runs)
    requires es != [] ==> Agree(LinkOf(es[|es| - 1]), LinkOf(e))
    ensures EndsWith(Grow(runs, e), es + [e]) && NoneEmpty(Grow(runs, e))
    ensures runs != [] && runs[|runs| - 1].id == e.id ==> runs[|runs| - 1].order == e.order && runs[|runs| - 1].title == e.title
  {
  }

  lemma NoEntries()
    ensures Entries([]) == [] && EndsWith([], []) && NoneEmpty([])
  {
  }

  /** Grouping into runs keeps every entry in its place. */
  lemma {:induction false} RunsKeepEntries(es: seq<Entry>)
    requires AllAgree(Links(es))
    ensures Entries(Runs(es)) == es && EndsWith(Runs(es), es) && NoneEmpty(Runs(es))
  {
    hide Entries, AllAgree, Links, Agree, Grow, EndsWith, NoneEmpty;
    if es == [] {
      NoEntries();
    } else {
      var n := |es| - 1;
      AgreePrefix(es, n);
      RunsKeepEntries(es[..n]);
      if n > 0 {
        LinksAgreeOn(es, n - 1, n);
      }
      GrowEnds(Runs(es[..n]), es[..n], es[n]);
      GrowEntries(Runs(es[..n]), es[n]);
      assert es == es[..n] + [es[n]];
    }
  }

  lemma ConsistentParts(es: seq<Entry>)
    requires Consistent(Links(es))
    ensures AllAgree(Links(es)) && NeverFalls(Links(es)) && EntriesDistinct(es)
  {
    hide AllAgree, NeverFalls, OrdersPositive;
    NumbersAreDistinct(es);
  }

  lemma SortedConsistent(es: seq<Entry>)
    requires Consistent(Links(es))
    ensures Consistent(Links(SortBy(es, EntryKey)))
  {
    hide SortBy, AllAgree, NeverFalls, OrdersPositive, Ascending, NumberKey;
    SortLinks(es);
    NumbersOnce(Links(es));
    SameMembers(Links(es), SortBy(Links(es), NumberKey));
    AscendingDistinct(SortBy(Links(es), NumberKey));
  }

  lemma AscendingDistinct(ls: seq<Link>)
    requires Ascending(ls)
    ensures NumbersDistinct(ls)
  {
  }

  /** The entries of the canonical form are the entries given, in chapter order. */
  lemma CanonicalEntries(vs: seq<Volume>)
    requires Canonicalized(vs).Success?
    ensures Entries(Canonicalized(vs).value) == SortBy(Entries(vs), EntryKey)
    ensures multiset(Entries(Canonicalized(vs).value)) == multiset(Entries(vs))
    ensures NoneEmpty(Canonicalized(vs).value)
  {
    hide SortBy, Consistent, Entries, Runs, EntryKey, NoneEmpty;
    var es := Entries(vs);
    SortedConsistent(es);
    ConsistentParts(SortBy(es, EntryKey));
    RunsKeepEntries(SortBy(es, EntryKey));
    SortKeepsElements(es, EntryKey);
  }

  /** Canonicalising twice is canonicalising once. */
  lemma CanonicalIsIdempotent(vs: seq<Volume>)
    requires Canonicalized(vs).Success?
    ensures Canonicalized(Canonicalized(vs).value) == Canonicalized(vs)
  {
    hide SortBy, Consistent, Entries, Runs, EntryKey, NoneEmpty, Links;
    CanonicalEntries(vs);
    SortedConsistent(Entries(vs));
    SortSorts(Entries(vs), EntryKey);
    SortedStays(SortBy(Entries(vs), EntryKey), EntryKey);
  }

  // ----- one run per volume -----

  lemma RisingEntries(es: seq<Entry>)
    requires Consistent(Links(es)) && Ascending(Links(es))
    ensures forall i, j | 0 <= i < j < |es| :: es[i].order <= es[j].order
  {
    hide AllAgree, OrdersPositive, NeverFalls, Ascending;
    AscendingNeverFalls(Links(es));
    forall i, j | 0 <= i < j < |es|
      ensures es[i].order <= es[j].order
    {
      assert Links(es)[i].volumeOrder <= Links(es)[j].volumeOrder;
    }
  }

  predicate OrdersRise(vs: seq<Volume>) { forall i, j | 0 <= i < j < |vs| :: vs[i].order < vs[j].order }

  lemma {:induction false} RunsRiseStrictly(es: seq<Entry>)
    requires AllAgree(Links(es)) && forall i, j | 0 <= i < j < |es| :: es[i].order <= es[j].order
    ensures OrdersRise(Runs(es)) && EndsWith(Runs(es), es)
  {
    if es != [] {
      hide AllAgree, Links;
      var n := |es| - 1;
      AgreePrefix(es, n);
      RunsRiseStrictly(es[..n]);
      var runs := Runs(es[..n]);
      if n > 0 {
        LinksAgreeOn(es, n - 1, n);
        assert runs[|runs| - 1].id != es[n].id ==> runs[|runs| - 1].order < es[n].order;
      }
    }
  }

  /** In the canonical form the volume orders rise strictly, so every volume is one continuous run. */
  lemma CanonicalRunsRise(vs: seq<Volume>)
    requires Canonicalized(vs).Success?
    ensures OrdersRise(Canonicalized(vs).value)
  {
    hide SortBy, Consistent, Entries, Runs, EntryKey, NoneEmpty, Links, OrdersRise;
    var es := Entries(vs);
    SortedConsistent(es);
    SortLinks(es);
    AscendingLinks(es);
    ConsistentParts(SortBy(es, EntryKey));
    RisingEntries(SortBy(es, EntryKey));
    RunsRiseStrictly(SortBy(es, EntryKey));
  }

  lemma AscendingLinks(es: seq<Entry>)
    requires Consistent(Links(es))
    ensures Ascending(Links(SortBy(es, EntryKey)))
  {
    hide SortBy, AllAgree, NeverFalls, OrdersPositive, Ascending, NumberKey, NumbersDistinct, EntryKey;
    SortLinks(es);
    NumbersOnce(Links(es));
  }

  // ----- input order -----

  lemma SameLinks(xs: seq<Entry>, ys: seq<Entry>, l: Link)
    requires multiset(xs) == multiset(ys) && l in Links(xs)
    ensures l in Links(ys)
  {
    var i :| 0 <= i < |xs| && Links(xs)[i] == l;
    assert xs[i] in multiset(ys);
    var j :| 0 <= j < |ys| && ys[j] == xs[i];
    assert Links(ys)[j] == l;
  }

  lemma {:induction false} DistinctOnce(es: seq<Entry>)
    requires EntriesDistinct(es)
    ensures Distinct(es)
    ensures forall x, y | x in es && y in es && EntryKey(x) == EntryKey(y) :: x == y
  {
    if es != [] {
      hide EntryKey;
      var n := |es| - 1;
      DistinctOnce(es[..n]);
      assert es == es[..n] + [es[n]];
      assert es[n] !in es[..n];
      forall x, y | x in es && y in es && EntryKey(x) == EntryKey(y)
        ensures x == y
      {
        SameEntryNumber(x, y);
      }
    }
  }

  lemma SameEntryNumber(x: Entry, y: Entry)
    requires EntryKey(x) == EntryKey(y)
    ensures x.chapter.number == y.chapter.number
  {
    assert EntryKey(x)[0][0] == EntryKey(y)[0][0];
  }

  lemma DistinctByMultiset(xs: seq<Entry>, ys: seq<Entry>)
    requires multiset(xs) == multiset(ys) && EntriesDistinct(xs)
    ensures EntriesDistinct(ys)
  {
    hide EntryKey;
    DistinctOnce(xs);
    assert Distinct(ys);
    forall i, j | 0 <= i < j < |ys|
      ensures ys[i].chapter.number != ys[j].chapter.number
    {
      DistinctPlaces(ys, i, j);
      assert ys[i] in multiset(xs) && ys[j] in multiset(xs);
    }
  }

  lemma ConsistentByMultiset(xs: seq<Entry>, ys: seq<Entry>)
    requires multiset(xs) == multiset(ys) && Consistent(Links(xs))
    ensures Consistent(Links(ys))
  {
    hide AllAgree, NeverFalls, OrdersPositive;
    NumbersAreDistinct(xs);
    DistinctByMultiset(xs, ys);
    forall l: Link | true
      ensures l in Links(xs) <==> l in Links(ys)
    {
      if l in Links(xs) {
        SameLinks(xs, ys, l);
      }
      if l in Links(ys) {
        SameLinks(ys, xs, l);
      }
    }
    SameMembers(Links(xs), Links(ys));
  }

  lemma SortByMultiset(xs: seq<Entry>, ys: seq<Entry>)
    requires multiset(xs) == multiset(ys) && EntriesDistinct(xs)
    ensures SortBy(xs, EntryKey) == SortBy(ys, EntryKey)
  {
    hide SortBy, EntryKey, Less, EntriesDistinct;
    DistinctByMultiset(xs, ys);
    DistinctOnce(xs);
    DistinctOnce(ys);
    SortDistinctIsStrict(xs, EntryKey);
    SortDistinctIsStrict(ys, EntryKey);
    forall e: Entry | true
      ensures e in SortBy(xs, EntryKey) <==> e in SortBy(ys, EntryKey)
    {
      assert e in xs <==> e in multiset(xs);
      assert e in ys <==> e in multiset(ys);
    }
    StrictlySortedUnique(SortBy(xs, EntryKey), SortBy(ys, EntryKey), EntryKey);
  }

  /** The order in which volumes and chapters are given does not matter. */
  lemma InputOrderIsInvisible(vs: seq<Volume>, ws: seq<Volume>)
    requires NoneEmpty(vs) && NoneEmpty(ws) && multiset(Entries(vs)) == multiset(Entries(ws))
    ensures Canonicalized(vs) == Canonicalized(ws)
  {
    hide SortBy, Consistent, Entries, Runs, EntryKey, NoneEmpty, Links;
    var xs, ys := Entries(vs), Entries(ws);
    if Consistent(Links(xs)) {
      ConsistentByMultiset(xs, ys);
      ConsistentParts(xs);
      SortByMultiset(xs, ys);
    } else if Consistent(Links(ys)) {
      ConsistentByMultiset(ys, xs);
    }
  }

  // ----- when volumes are accepted -----

  lemma {:induction false} EntriesHave(vs: seq<Volume>, e: Entry)
    ensures e in Entries(vs) <==> exists v | v in vs :: e.chapter in v.chapters && e == Entry(e.chapter, v.id, v.order, v.title)
  {
    if vs != [] {
      var n := |vs| - 1;
      EntriesHave(vs[..n], e);
      VolumeHas(vs[n], e);
      assert forall v :: v in vs <==> v in vs[..n] || v == vs[n];
    }
  }

  lemma VolumeHas(v: Volume, e: Entry)
    ensures e in VolumeEntries(v) <==> e.chapter in v.chapters && e == Entry(e.chapter, v.id, v.order, v.title)
  {
    if e.chapter in v.chapters && e == Entry(e.chapter, v.id, v.order, v.title) {
      var i :| 0 <= i < |v.chapters| && v.chapters[i] == e.chapter;
      assert VolumeEntries(v)[i] == e;
    }
  }

  /** Volumes of one id are of one order and title, and of one order of one id; orders are positive. */
  predicate VolumesAgree(vs: seq<Volume>) {
    forall v, w | v in vs && w in vs ::
      v.order >= 1 && (v.id == w.id <==> v.order == w.order) && (v.id == w.id ==> v.title == w.title)
  }

  /** A later chapter never stands in an earlier volume. */
  predicate ChaptersRise(vs: seq<Volume>) {
    forall v, w, x, y | v in vs && w in vs && x in v.chapters && y in w.chapters && x.number < y.number :: v.order <= w.order
  }

  lemma LinksHave(es: seq<Entry>)
    ensures forall l :: l in Links(es) <==> exists e | e in es :: LinkOf(e) == l
  {
    forall i | 0 <= i < |es|
      ensures Links(es)[i] == LinkOf(es[i]) && es[i] in es && LinkOf(es[i]) in Links(es)
    {
      assert Links(es)[i] in Links(es);
    }
  }

  lemma LinkOfChapter(vs: seq<Volume>, v: Volume, x: Chapter)
    requires v in vs && x in v.chapters
    ensures Link(x.number, v.id, v.order, v.title) in Links(Entries(vs))
  {
    hide Entries;
    var e := Entry(x, v.id, v.order, v.title);
    EntriesHave(vs, e);
    LinksHave(Entries(vs));
    assert LinkOf(e) == Link(x.number, v.id, v.order, v.title);
  }

  lemma ChapterOfLink(vs: seq<Volume>, l: Link) returns (v: Volume, x: Chapter)
    requires l in Links(Entries(vs))
    ensures v in vs && x in v.chapters && l == Link(x.number, v.id, v.order, v.title)
  {
    hide Entries;
    LinksHave(Entries(vs));
    var e :| e in Entries(vs) && LinkOf(e) == l;
    EntriesHave(vs, e);
    v :| v in vs && e.chapter in v.chapters && e == Entry(e.chapter, v.id, v.order, v.title);
    x := e.chapter;
  }

  lemma AgreeByVolume(vs: seq<Volume>)
    requires NoneEmpty(vs)
    ensures AllAgree(Links(Entries(vs))) && OrdersPositive(Links(Entries(vs))) <==> VolumesAgree(vs)
  {
    hide Links, Entries;
    var ls := Links(Entries(vs));
    if VolumesAgree(vs) {
      forall a, b | a in ls && b in ls
        ensures Agree(a, b) && a.volumeOrder >= 1
      {
        var v, x := ChapterOfLink(vs, a);
        var w, y := ChapterOfLink(vs, b);
      }
    }
    if AllAgree(ls) && OrdersPositive(ls) {
      forall v, w | v in vs && w in vs
        ensures v.order >= 1 && (v.id == w.id <==> v.order == w.order) && (v.id == w.id ==> v.title == w.title)
      {
        LinkOfChapter(vs, v, v.chapters[0]);
        LinkOfChapter(vs, w, w.chapters[0]);
        assert Agree(Link(v.chapters[0].number, v.id, v.order, v.title), Link(w.chapters[0].number, w.id, w.order, w.title));
      }
    }
  }

  lemma RiseByChapter(vs: seq<Volume>)
    ensures NeverFalls(Links(Entries(vs))) <==> ChaptersRise(vs)
  {
    hide Links, Entries;
    var ls := Links(Entries(vs));
    if ChaptersRise(vs) {
      forall a, b | a in ls && b in ls && a.number < b.number
        ensures a.volumeOrder <= b.volumeOrder
      {
        var v, x := ChapterOfLink(vs, a);
        var w, y := ChapterOfLink(vs, b);
      }
    }
    if NeverFalls(ls) {
      forall v, w, x, y | v in vs && w in vs && x in v.chapters && y in w.chapters && x.number < y.number
        ensures v.order <= w.order
      {
        LinkOfChapter(vs, v, x);
        LinkOfChapter(vs, w, y);
        assert Link(x.number, v.id, v.order, v.title).volumeOrder <= Link(y.number, w.id, w.order, w.title).volumeOrder;
      }
    }
  }

  /** A structure is accepted exactly when no volume is empty, no chapter number occurs twice, volumes agree and chapters rise. */
  lemma AcceptedVolumes(vs: seq<Volume>)
    ensures Canonicalized(vs).Success? <==>
              && (forall v | v in vs :: v.chapters != [])
              && EntriesDistinct(Entries(vs)) && VolumesAgree(vs) && ChaptersRise(vs)
  {
    hide Entries, SortBy, Runs, AllAgree, NeverFalls, OrdersPositive, VolumesAgree, ChaptersRise;
    if NoneEmpty(vs) {
      AgreeByVolume(vs);
      RiseByChapter(vs);
    }
    NumbersByEntry(Entries(vs));
  }

  lemma NumbersByEntry(es: seq<Entry>)
    ensures NumbersDistinct(Links(es)) <==> EntriesDistinct(es)
  {
    assert forall i | 0 <= i < |es| :: Links(es)[i].number == es[i].chapter.number;
  }
}
