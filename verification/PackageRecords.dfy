/** The package's record lines: one canonical printing, and a reader that accepts nothing else. */
module PackageRecords {
  import opened Wrappers
  import opened Ordering
  import opened Utf8

  const NEWLINE: byte := 10
  const MAX_ENTRY_COUNT: nat := 20_000
  const MAX_STRUCTURED_ENTRY_BYTES: nat := 134_217_728
  const READ_CHUNK_BYTES: nat := 65_536

  datatype Record = Record(entityType: string, logicalId: string, revision: nat, order: nat, data: string)

  /** Prints a record's canonical line, and parses and validates the record of a line. */
  datatype Format = Format(line: Record -> seq<byte>, parse: seq<byte> -> Option<Record>)

  predicate IsLine(raw: seq<byte>) { |raw| > 1 && raw[|raw| - 1] == NEWLINE && NEWLINE !in raw[..|raw| - 1] }

  /** Canonical JSON fits one line, and parsing it gives the record back. */
  ghost predicate FormatOk(f: Format) {
    forall r: Record :: IsLine(f.line(r)) && f.parse(f.line(r)) == Some(r)
  }

  // ----- the canonical form -----

  function SortKey(r: Record): Key { [Chars(r.entityType), Chars(r.logicalId), [r.revision], [r.order]] }

  function Lines(rs: seq<Record>, f: Format): seq<byte> {
    if rs == [] then [] else f.line(rs[0]) + Lines(rs[1..], f)
  }

  predicate KeysDistinct(rs: seq<Record>) { forall i, j | 0 <= i < j < |rs| :: SortKey(rs[i]) != SortKey(rs[j]) }

  datatype PackageError = InvalidPackage

  function CanonicalJsonl(rs: seq<Record>, f: Format): Result<seq<byte>, PackageError> {
    if KeysDistinct(rs) then Success(Lines(SortBy(rs, SortKey), f)) else Failure(InvalidPackage)
  }

  // ----- what the reader demands -----

  function IdentityOf(r: Record): (string, string) { (r.entityType, r.logicalId) }

  predicate Follows(rs: seq<Record>, r: Record) {
    && (forall i | 0 <= i < |rs| :: IdentityOf(rs[i]) != IdentityOf(r))
    && (rs != [] ==> Less(SortKey(rs[|rs| - 1]), SortKey(r)))
    && |rs| < MAX_ENTRY_COUNT
  }

  /** In strictly ascending order, every identity once, not too many. */
  predicate Good(rs: seq<Record>) {
    forall i | 0 <= i < |rs| :: Follows(rs[..i], rs[i])
  }

  function FindNewline(s: seq<byte>): (r: Option<nat>)
    ensures r.Some? ==> r.value < |s| && s[r.value] == NEWLINE && NEWLINE !in s[..r.value]
    ensures r.None? ==> NEWLINE !in s
  {
    if s == [] then None
    else if s[0] == NEWLINE then Some(0)
    else
      var rest := FindNewline(s[1..]);
      if rest.Some? then
        assert s[..rest.value + 1] == [s[0]] + s[1..][..rest.value];
        Some(rest.value + 1)
      else
        assert s == [s[0]] + s[1..];
        None
  }

  /** The record of a raw line, if the line is exactly its canonical print. */
  function RecordOf(raw: seq<byte>, f: Format): Option<Record> {
    var r := f.parse(raw);
    if r.Some? && f.line(r.value) == raw then r else None
  }

  /** Reading line by line, with everything at hand. */
  function ReadFrom(s: seq<byte>, done: seq<Record>, f: Format): Option<seq<Record>>
    decreases |s|
  {
    if s == [] then Some(done)
    else
      var end := FindNewline(s);
      if end.None? || end.value == 0 then None
      else
        var r := RecordOf(s[..end.value + 1], f);
        if r.None? || !Follows(done, r.value) then None
        else ReadFrom(s[end.value + 1..], done + [r.value], f)
  }

  // ----- exactness -----

  lemma {:induction false} FindIs(s: seq<byte>, p: nat)
    requires p < |s| && s[p] == NEWLINE && forall k | 0 <= k < p :: s[k] != NEWLINE
    ensures FindNewline(s) == Some(p)
  {
    if p > 0 {
      FindIs(s[1..], p - 1);
    }
  }

  lemma FirstLine(a: seq<byte>, b: seq<byte>)
    requires IsLine(a)
    ensures FindNewline(a + b) == Some(|a| - 1) && (a + b)[..|a|] == a && (a + b)[|a|..] == b
  {
    hide FindNewline;
    var s := a + b;
    forall k | 0 <= k < |a| - 1
      ensures s[k] != NEWLINE
    {
      assert s[k] == a[..|a| - 1][k];
    }
    FindIs(s, |a| - 1);
  }

  lemma ReadLine(r: Record, s: seq<byte>, done: seq<Record>, f: Format)
    requires FormatOk(f)
    ensures ReadFrom(f.line(r) + s, done, f) == if Follows(done, r) then ReadFrom(s, done + [r], f) else None
  {
    hide FindNewline, Follows;
    FirstLine(f.line(r), s);
    assert IsLine(f.line(r)) && f.parse(f.line(r)) == Some(r);
  }

  lemma GoodOneMore(rs: seq<Record>, r: Record)
    ensures Good(rs) && Follows(rs, r) <==> Good(rs + [r])
  {
    hide Follows;
    var more := rs + [r];
    assert more[..|rs|] == rs;
    forall i | 0 <= i < |rs|
      ensures more[..i] == rs[..i] && more[i] == rs[i]
    {
    }
    if Good(more) {
      assert Follows(more[..|rs|], more[|rs|]);
      forall i | 0 <= i < |rs|
        ensures Follows(rs[..i], rs[i])
      {
        assert Follows(more[..i], more[i]);
      }
    }
  }

  lemma GoodPrefix(rs: seq<Record>, n: nat)
    requires Good(rs) && n <= |rs|
    ensures Good(rs[..n])
  {
    hide Follows;
    forall i | 0 <= i < n
      ensures Follows(rs[..n][..i], rs[..n][i])
    {
      assert rs[..n][..i] == rs[..i];
    }
  }

  /** The lines of records that go on well are read back as those records. */
  lemma {:induction false} LinesAreRead(rs: seq<Record>, done: seq<Record>, f: Format)
    requires FormatOk(f) && Good(done + rs)
    ensures ReadFrom(Lines(rs, f), done, f) == Some(done + rs)
    decreases |rs|
  {
    hide Follows, FormatOk, Good, ReadFrom, Lines;
    if rs == [] {
      NothingRead(done, f);
      assert done + rs == done;
    } else {
      assert rs == [rs[0]] + rs[1..];
      LinesOfMore(rs[0], rs[1..], f);
      GoodPrefix(done + rs, |done| + 1);
      assert (done + rs)[..|done| + 1] == done + [rs[0]];
      GoodOneMore(done, rs[0]);
      ReadLine(rs[0], Lines(rs[1..], f), done, f);
      assert done + rs == (done + [rs[0]]) + rs[1..];
      LinesAreRead(rs[1..], done + [rs[0]], f);
    }
  }

  lemma LinesOfMore(r: Record, rs: seq<Record>, f: Format)
    ensures Lines([r] + rs, f) == f.line(r) + Lines(rs, f)
  {
    assert ([r] + rs)[1..] == rs;
  }

  lemma ReadStep(s: seq<byte>, done: seq<Record>, f: Format) returns (r: Record, rest: seq<byte>)
    requires s != [] && ReadFrom(s, done, f).Some?
    ensures s == f.line(r) + rest && |rest| < |s| && Follows(done, r)
    ensures ReadFrom(s, done, f) == ReadFrom(rest, done + [r], f)
  {
    hide Follows, FindNewline;
    var end := FindNewline(s).value;
    r := RecordOf(s[..end + 1], f).value;
    rest := s[end + 1..];
    assert s == s[..end + 1] + rest;
  }

  lemma NothingRead(done: seq<Record>, f: Format)
    ensures ReadFrom([], done, f) == Some(done) && Lines([], f) == []
  {
  }

  /** Whatever is read was the lines of the new records, all of them good. */
  lemma {:induction false} ReadAreLines(s: seq<byte>, done: seq<Record>, f: Format) returns (rs: seq<Record>)
    requires Good(done) && ReadFrom(s, done, f).Some?
    ensures ReadFrom(s, done, f) == Some(done + rs) && Good(done + rs) && s == Lines(rs, f)
    decreases |s|
  {
    hide Follows, Good, ReadFrom, Lines;
    if s == [] {
      rs := [];
      NothingRead(done, f);
      assert done + rs == done;
    } else {
      var r, rest := ReadStep(s, done, f);
      GoodOneMore(done, r);
      var more := ReadAreLines(rest, done + [r], f);
      rs := [r] + more;
      LinesOfMore(r, more, f);
      assert (done + [r]) + more == done + rs;
    }
  }

  /** The reader accepts exactly the lines of good records, and returns those. */
  lemma ReadsExactly(s: seq<byte>, rs: seq<Record>, f: Format)
    requires FormatOk(f)
    ensures ReadFrom(s, [], f) == Some(rs) <==> Good(rs) && s == Lines(rs, f)
  {
    hide Good, ReadFrom, Lines, FormatOk;
    EmptyGood();
    if ReadFrom(s, [], f) == Some(rs) {
      var read := ReadAreLines(s, [], f);
      assert [] + read == read;
    }
    if Good(rs) && s == Lines(rs, f) {
      assert [] + rs == rs;
      LinesAreRead(rs, [], f);
    }
  }

  lemma EmptyGood()
    ensures Good([])
  {
  }

  // ----- the reader and the canonical form -----

  lemma {:induction false} GoodAscends(rs: seq<Record>, i: nat, j: nat)
    requires Good(rs) && i < j < |rs|
    ensures Less(SortKey(rs[i]), SortKey(rs[j]))
    decreases j
  {
    hide Less, SortKey;
    assert Follows(rs[..j], rs[j]);
    assert rs[..j][j - 1] == rs[j - 1];
    if i < j - 1 {
      GoodAscends(rs, i, j - 1);
      Transitive(SortKey(rs[i]), SortKey(rs[j - 1]), SortKey(rs[j]));
    }
  }

  lemma GoodIsSorted(rs: seq<Record>)
    requires Good(rs)
    ensures Sorted(rs, SortKey) && KeysDistinct(rs)
  {
    hide Good, Less, SortKey;
    forall i, j | 0 <= i < j < |rs|
      ensures AtMost(SortKey(rs[i]), SortKey(rs[j])) && SortKey(rs[i]) != SortKey(rs[j])
    {
      GoodAscends(rs, i, j);
      Trichotomy(SortKey(rs[i]), SortKey(rs[j]));
    }
  }

  /** Accepted bytes are precisely the canonical form of the records they give. */
  lemma AcceptedIsCanonical(s: seq<byte>, f: Format)
    requires FormatOk(f) && ReadFrom(s, [], f).Some?
    ensures CanonicalJsonl(ReadFrom(s, [], f).value, f) == Success(s)
  {
    hide Good, ReadFrom, Lines, FormatOk, SortBy, KeysDistinct, Sorted;
    var rs := ReadFrom(s, [], f).value;
    ReadsExactly(s, rs, f);
    GoodIsSorted(rs);
    SortedStays(rs, SortKey);
  }

  /** By entity type, then logical id, revision and order. */
  predicate Earlier(a: Record, b: Record) {
    || Precedes(a.entityType, b.entityType)
    || (a.entityType == b.entityType
        && (|| Precedes(a.logicalId, b.logicalId)
            || (a.logicalId == b.logicalId && (a.revision < b.revision || (a.revision == b.revision && a.order < b.order)))))
  }

  lemma KeysInOrder(a: Record, b: Record)
    ensures Less(SortKey(a), SortKey(b)) <==> Earlier(a, b)
  {
    hide PartLess, Less, Precedes;
    var k, l := SortKey(a), SortKey(b);
    assert k[0..] == k && l[0..] == l;
    PartDecides(k, l, 0);
    PartDecides(k, l, 1);
    PartDecides(k, l, 2);
    TextParts(a.entityType, b.entityType);
    TextParts(a.logicalId, b.logicalId);
    SingleParts(a.revision, b.revision);
    assert [a.revision][0] == a.revision && [b.revision][0] == b.revision;
    assert k[3..] == [[a.order]] && l[3..] == [[b.order]];
    SingleLess(a.order, b.order);
  }

  /** What is read comes in that order, with every identity once and no more than twenty thousand records. */
  lemma ReadInOrder(s: seq<byte>, f: Format)
    requires FormatOk(f) && ReadFrom(s, [], f).Some?
    ensures var rs := ReadFrom(s, [], f).value;
            && |rs| <= 20_000
            && forall i, j | 0 <= i < j < |rs| ::
                 && Earlier(rs[i], rs[j])
                 && (rs[i].entityType != rs[j].entityType || rs[i].logicalId != rs[j].logicalId)
  {
    hide ReadFrom, Lines, FormatOk, Less, SortKey, Earlier;
    var rs := ReadFrom(s, [], f).value;
    ReadsExactly(s, rs, f);
    if rs != [] {
      assert Follows(rs[..|rs| - 1], rs[|rs| - 1]);
    }
    forall i, j | 0 <= i < j < |rs|
      ensures Earlier(rs[i], rs[j]) && (rs[i].entityType != rs[j].entityType || rs[i].logicalId != rs[j].logicalId)
    {
      GoodAscends(rs, i, j);
      KeysInOrder(rs[i], rs[j]);
      assert Follows(rs[..j], rs[j]);
      assert rs[..j][i] == rs[i];
    }
  }

  predicate IdentitiesDistinct(rs: seq<Record>) { forall i, j | 0 <= i < j < |rs| :: IdentityOf(rs[i]) != IdentityOf(rs[j]) }

  lemma GoodIff(rs: seq<Record>)
    requires StrictlySorted(rs, SortKey)
    ensures Good(rs) <==> IdentitiesDistinct(rs) && |rs| <= MAX_ENTRY_COUNT
  {
    hide Less, SortKey;
    if Good(rs) {
      if |rs| > 0 {
        assert Follows(rs[..|rs| - 1], rs[|rs| - 1]);
      }
      forall i, j | 0 <= i < j < |rs|
        ensures IdentityOf(rs[i]) != IdentityOf(rs[j])
      {
        assert Follows(rs[..j], rs[j]);
        assert rs[..j][i] == rs[i];
      }
    }
    if IdentitiesDistinct(rs) && |rs| <= MAX_ENTRY_COUNT {
      forall i | 0 <= i < |rs|
        ensures Follows(rs[..i], rs[i])
      {
        assert forall k | 0 <= k < i :: rs[..i][k] == rs[k];
      }
    }
  }

  lemma SortedIdentities(rs: seq<Record>)
    ensures IdentitiesDistinct(SortBy(rs, SortKey)) <==> IdentitiesDistinct(rs)
  {
    hide SortBy, SortKey;
    var ys := SortBy(rs, SortKey);
    SortKeepsElements(rs, SortKey);
    if IdentitiesDistinct(rs) {
      DistinctTransfers(rs, ys);
    }
    if IdentitiesDistinct(ys) {
      DistinctTransfers(ys, rs);
    }
  }

  lemma DistinctTransfers(xs: seq<Record>, ys: seq<Record>)
    requires multiset(xs) == multiset(ys) && IdentitiesDistinct(xs)
    ensures IdentitiesDistinct(ys)
  {
    OnceEach(xs);
    assert Distinct(ys);
    forall i, j | 0 <= i < j < |ys|
      ensures IdentityOf(ys[i]) != IdentityOf(ys[j])
    {
      DistinctPlaces(ys, i, j);
      assert ys[i] in multiset(xs) && ys[j] in multiset(xs);
    }
  }

  lemma {:induction false} OnceEach(xs: seq<Record>)
    requires IdentitiesDistinct(xs)
    ensures Distinct(xs)
  {
    if xs != [] {
      var n := |xs| - 1;
      OnceEach(xs[..n]);
      assert xs == xs[..n] + [xs[n]];
      assert xs[n] !in xs[..n];
    }
  }

  /** What was printed is read back, in key order, exactly when no identity occurs twice and there are not too many. */
  lemma PrintedIsRead(rs: seq<Record>, f: Format)
    requires FormatOk(f) && CanonicalJsonl(rs, f).Success?
    ensures ReadFrom(CanonicalJsonl(rs, f).value, [], f).Some? <==> IdentitiesDistinct(rs) && |rs| <= MAX_ENTRY_COUNT
    ensures ReadFrom(CanonicalJsonl(rs, f).value, [], f).Some? ==>
              ReadFrom(CanonicalJsonl(rs, f).value, [], f).value == SortBy(rs, SortKey)
  {
    hide Good, ReadFrom, FormatOk, SortBy, SortKey, IdentitiesDistinct;
    var ys := SortBy(rs, SortKey);
    var s := Lines(ys, f);
    KeysOnce(rs);
    SortDistinctIsStrict(rs, SortKey);
    GoodIff(ys);
    SortedIdentities(rs);
    ReadsExactly(s, ys, f);
    if ReadFrom(s, [], f).Some? {
      var zs := ReadFrom(s, [], f).value;
      ReadsExactly(s, zs, f);
      LinesInjective(ys, zs, f);
    }
  }

  lemma {:induction false} KeysOnce(rs: seq<Record>)
    requires KeysDistinct(rs)
    ensures Distinct(rs)
    ensures forall x, y | x in rs && y in rs && SortKey(x) == SortKey(y) :: x == y
  {
    hide SortKey;
    if rs != [] {
      var n := |rs| - 1;
      KeysOnce(rs[..n]);
      assert rs == rs[..n] + [rs[n]];
      assert rs[n] !in rs[..n];
    }
  }

  lemma {:induction false} LinesInjective(a: seq<Record>, b: seq<Record>, f: Format)
    requires FormatOk(f) && Lines(a, f) == Lines(b, f)
    ensures a == b
  {
    if a == [] || b == [] {
      assert a != [] ==> IsLine(f.line(a[0]));
      assert b != [] ==> IsLine(f.line(b[0]));
    } else {
      FirstLine(f.line(a[0]), Lines(a[1..], f));
      FirstLine(f.line(b[0]), Lines(b[1..], f));
      assert f.parse(f.line(a[0])) == Some(a[0]) && f.parse(f.line(b[0])) == Some(b[0]);
      LinesInjective(a[1..], b[1..], f);
    }
  }
}
