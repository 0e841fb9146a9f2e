/** What the theorems assume of library functions and of maps can be met. */
module Instances {
  import opened Wrappers
  import opened Utf8
  import opened Planning
  import opened ImportIdentities
  import opened PlanningImport
  import opened PlanningImportGuarantees
  import opened PackageRecords
  import opened CorpusText
  import opened CorpusChapters
  import opened CorpusParse

  // ----- UTF-8 sources -----

  lemma {:induction false} EncodesInTurn(text: string)
    ensures Encode(text, Utf8Bytes) == EncodeText(text)
  {
    hide Utf8Bytes;
    if text != "" {
      var n := |text| - 1;
      EncodesInTurn(text[..n]);
      EncodedConcat(text[..n], [text[n]]);
      assert text == text[..n] + [text[n]];
      assert EncodeText([text[n]]) == Utf8Bytes(text[n]) + EncodeText([text[n]][1..]);
    }
  }

  /** Of a UTF-8 source nothing is left to assume but canonical composition. */
  lemma Utf8SourcesQualify(text: string, marked: bool, nfc: Composer, space: Spaces)
    requires ComposerOk(nfc)
    ensures WorldOk(World(Source(text, marked, Utf8Bytes), Decode, nfc, space))
  {
    hide Encode, Decode, Utf8Bytes;
    forall t: string | true
      ensures Decode(Encode(t, Utf8Bytes)) == Some(t)
      ensures t != "" && UTF8_BOM <= Encode(t, Utf8Bytes) ==> t[0] == BOM
    {
      EncodesInTurn(t);
      DecodesWhatIsEncoded(t);
      if t != "" && UTF8_BOM <= Encode(t, Utf8Bytes) {
        HeadOfBytes(t[0], EncodeText(t[1..]));
      }
    }
  }

  lemma IdentityComposes()
    ensures ComposerOk((s: string) => s)
  {
  }

  // ----- record lines -----

  function Unary(n: nat): seq<byte> { if n == 0 then [0] else [1] + Unary(n - 1) }

  function UnaryText(s: string): seq<byte> { if s == "" then [0] else [1] + Unary(s[0] as nat) + UnaryText(s[1..]) }

  function UnaryRecord(r: Record): seq<byte> {
    UnaryText(r.entityType) + (UnaryText(r.logicalId) + (Unary(r.revision) + (Unary(r.order) + UnaryText(r.data))))
  }

  predicate Bits(s: seq<byte>) { forall b | b in s :: b < 2 }

  lemma {:induction false} UnaryParts(m: nat, n: nat, x: seq<byte>, y: seq<byte>)
    requires Unary(m) + x == Unary(n) + y
    ensures m == n && x == y
  {
    var s := Unary(m) + x;
    assert s[0] == if m == 0 then 0 else 1;
    assert s[0] == if n == 0 then 0 else 1;
    if m == 0 {
      assert s[1..] == x && s[1..] == y;
    } else {
      assert s[1..] == Unary(m - 1) + x && s[1..] == Unary(n - 1) + y;
      UnaryParts(m - 1, n - 1, x, y);
    }
  }

  lemma {:induction false} TextParts(a: string, b: string, x: seq<byte>, y: seq<byte>)
    requires UnaryText(a) + x == UnaryText(b) + y
    ensures a == b && x == y
  {
    var s := UnaryText(a) + x;
    assert s[0] == if a == "" then 0 else 1;
    assert s[0] == if b == "" then 0 else 1;
    if a == "" {
      assert s[1..] == x && s[1..] == y;
    } else {
      hide Unary;
      assert s[1..] == Unary(a[0] as nat) + (UnaryText(a[1..]) + x);
      assert s[1..] == Unary(b[0] as nat) + (UnaryText(b[1..]) + y);
      UnaryParts(a[0] as nat, b[0] as nat, UnaryText(a[1..]) + x, UnaryText(b[1..]) + y);
      TextParts(a[1..], b[1..], x, y);
      assert a == [a[0]] + a[1..] && b == [b[0]] + b[1..];
    }
  }

  lemma RecordParts(r: Record, t: Record)
    requires UnaryRecord(r) == UnaryRecord(t)
    ensures r == t
  {
    hide Unary, UnaryText;
    TextParts(r.entityType, t.entityType, UnaryText(r.logicalId) + (Unary(r.revision) + (Unary(r.order) + UnaryText(r.data))),
              UnaryText(t.logicalId) + (Unary(t.revision) + (Unary(t.order) + UnaryText(t.data))));
    TextParts(r.logicalId, t.logicalId, Unary(r.revision) + (Unary(r.order) + UnaryText(r.data)),
              Unary(t.revision) + (Unary(t.order) + UnaryText(t.data)));
    UnaryParts(r.revision, t.revision, Unary(r.order) + UnaryText(r.data), Unary(t.order) + UnaryText(t.data));
    UnaryParts(r.order, t.order, UnaryText(r.data), UnaryText(t.data));
    assert UnaryText(r.data) + [] == UnaryText(r.data) && UnaryText(t.data) + [] == UnaryText(t.data);
    TextParts(r.data, t.data, [], []);
  }

  lemma {:induction false} UnaryIsBits(n: nat)
    ensures Bits(Unary(n)) && Unary(n) != []
  {
    if n != 0 {
      UnaryIsBits(n - 1);
    }
  }

  lemma {:induction false} TextIsBits(s: string)
    ensures Bits(UnaryText(s)) && UnaryText(s) != []
  {
    if s != "" {
      UnaryIsBits(s[0] as nat);
      TextIsBits(s[1..]);
    }
  }

  ghost function UnaryParse(raw: seq<byte>): Option<Record> {
    if exists r :: UnaryRecord(r) + [NEWLINE] == raw then
      var r :| UnaryRecord(r) + [NEWLINE] == raw;
      Some(r)
    else None
  }

  /** Some printing keeps every record on one line and can be parsed back. */
  lemma FormatExists()
    ensures exists f :: FormatOk(f)
  {
    hide UnaryRecord;
    var f := Format(r => UnaryRecord(r) + [NEWLINE], raw => UnaryParse(raw));
    forall r: Record | true
      ensures IsLine(f.line(r)) && f.parse(f.line(r)) == Some(r)
    {
      RecordIsBits(r);
      var raw := f.line(r);
      assert raw[..|raw| - 1] == UnaryRecord(r);
      var t := UnaryParse(raw).value;
      assert UnaryRecord(t) == (UnaryRecord(t) + [NEWLINE])[..|raw| - 1];
      RecordParts(r, t);
    }
    assert FormatOk(f);
  }

  lemma RecordIsBits(r: Record)
    ensures Bits(UnaryRecord(r)) && UnaryRecord(r) != []
  {
    hide Unary, UnaryText;
    TextIsBits(r.entityType);
    TextIsBits(r.logicalId);
    UnaryIsBits(r.revision);
    UnaryIsBits(r.order);
    TextIsBits(r.data);
  }

  // ----- identity maps -----

  /** An import whose identifiers are never empty renames nothing to the empty id. */
  lemma IdentifiersAreTargets(ids: IdMap, xs: seq<ImportIdentities.Identity>, uuid: ImportIdentities.Identity -> string)
    requires MapsAll(ids, xs, uuid) && forall x | x in xs :: uuid(x) != ""
    ensures NonEmptyTargets(ids)
  {
  }

  function Tag(x: ImportIdentities.Identity): string { seq(|x.0|, _ => 'a') + "b" + x.0 + x.1 }

  lemma TagsDiffer(x: ImportIdentities.Identity, y: ImportIdentities.Identity)
    requires Tag(x) == Tag(y)
    ensures x == y
  {
    var m, n := |x.0|, |y.0|;
    assert forall k | 0 <= k < m :: Tag(x)[k] == 'a';
    assert forall k | 0 <= k < n :: Tag(y)[k] == 'a';
    assert Tag(x)[m] == 'b' && Tag(y)[n] == 'b';
    assert m == n;
    assert Tag(x)[m + 1..m + 1 + m] == x.0 && Tag(y)[m + 1..m + 1 + m] == y.0;
    assert Tag(x)[m + 1 + m..] == x.1 && Tag(y)[m + 1 + m..] == y.1;
  }

  function LinksOf(b: Body): set<ImportIdentities.Identity> {
    match b
    case VolumeBody(_) => {}
    case PlotBody(f) => if EntityOf(f).Some? then {(ENTITY, EntityOf(f).value)} else {}
    case BlockBody(volume, plots, _) => {(TypeName(VolumeKind), volume)} + set x | x in plots :: (TypeName(PlotKind), x)
    case StageBody(block, _) => {(TypeName(BlockKind), block)}
    case TaskBody(stage, _) => {(TypeName(StageKind), stage)}
  }

  function Slots(p: Plan): set<ImportIdentities.Identity> {
    (set n | n in Nodes(p) :: (TypeName(KindOf(n.body)), n.id))
    + (set n, x | n in Nodes(p) && x in LinksOf(n.body) :: x)
    + (if p.activeBlock.Some? then {(TypeName(BlockKind), p.activeBlock.value)} else {})
  }

  /** Every aggregate can be imported. */
  lemma EveryPlanCanBeImported(p: Plan)
    ensures exists ids :: PlanMapped(ids, p) && Injective(ids) && NonEmptyTargets(ids)
  {
    hide Nodes, TypeName, Tag;
    var ids: IdMap := map x | x in Slots(p) :: Tag(x);
    forall n | n in Nodes(p)
      ensures NodeMapped(ids, n)
    {
      SlotsHold(ids, p, n);
    }
    forall a, b | a in ids && b in ids && ids[a] == ids[b]
      ensures a == b
    {
      TagsDiffer(a, b);
    }
    forall x | x in ids
      ensures ids[x] != ""
    {
      TagIsNotEmpty(x);
    }
    assert PlanMapped(ids, p) && Injective(ids) && NonEmptyTargets(ids);
  }

  lemma TagIsNotEmpty(x: ImportIdentities.Identity)
    ensures Tag(x) != ""
  {
    assert |Tag(x)| >= 1;
  }

  lemma SlotsHold(ids: IdMap, p: Plan, n: Node)
    requires n in Nodes(p) && ids.Keys == Slots(p)
    ensures NodeMapped(ids, n)
  {
    hide Nodes, TypeName, EntityOf;
    assert forall x | x in LinksOf(n.body) :: x in Slots(p);
    assert (TypeName(KindOf(n.body)), n.id) in Slots(p);
  }
}
