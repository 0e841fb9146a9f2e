/** The command-scoped identity map an import renames everything by. */
module ImportIdentities {
  import opened Wrappers

  /** A package identity: entity type and logical id. */
  type Identity = (string, string)

  type IdMap = map<Identity, string>

  datatype ImportError = InvalidImport

  const PROJECT: Identity := ("project", "project:1")

  predicate DistinctIdentities(xs: seq<Identity>) { forall i, j | 0 <= i < j < |xs| :: xs[i] != xs[j] }

  predicate Injective(ids: IdMap) { forall a, b | a in ids && b in ids && ids[a] == ids[b] :: a == b }

  /** The supplied identities are of the closed types, distinct, and hold exactly one project. */
  predicate Closed(xs: seq<Identity>, wellFormed: Identity -> bool) {
    && (forall x | x in xs :: wellFormed(x))
    && DistinctIdentities(xs)
    && PROJECT in xs
    && (forall x | x in xs && x.0 == "project" :: x == PROJECT)
  }

  predicate TargetsDistinct(xs: seq<Identity>, uuid: Identity -> string) {
    forall i, j | 0 <= i < j < |xs| :: uuid(xs[i]) != uuid(xs[j])
  }

  predicate MapsAll(ids: IdMap, xs: seq<Identity>, uuid: Identity -> string) {
    && (forall x | x in xs :: x in ids && ids[x] == uuid(x))
    && (forall x | x in ids :: x in xs)
  }

  /** Succeeds exactly on a closed list whose targets do not collide; the map is then injective. */
  method BuildImportIdentityMap(xs: seq<Identity>, wellFormed: Identity -> bool, uuid: Identity -> string)
    returns (r: Result<IdMap, ImportError>)
    ensures r.Success? <==> Closed(xs, wellFormed) && TargetsDistinct(xs, uuid)
    ensures r.Success? ==> MapsAll(r.value, xs, uuid) && Injective(r.value)
  {
    var mapped: IdMap := map[];
    var outputs: set<string> := {};
    for i := 0 to |xs|
      invariant MapsAll(mapped, xs[..i], uuid)
      invariant forall k | 0 <= k < i :: wellFormed(xs[k])
      invariant DistinctIdentities(xs[..i]) && TargetsDistinct(xs[..i], uuid)
      invariant forall t :: t in outputs <==> exists k | 0 <= k < i :: uuid(xs[k]) == t
    {
      var x := xs[i];
      hide MapsAll, Closed;
      if !wellFormed(x) {
        NotClosed(xs, wellFormed, i);
        return Failure(InvalidImport);
      }
      if x in xs[..i] {
        var k :| 0 <= k < i && xs[k] == x;
        NotDistinct(xs, wellFormed, k, i);
        return Failure(InvalidImport);
      }
      var target := uuid(x);
      if target in outputs {
        var k :| 0 <= k < i && uuid(xs[k]) == target;
        assert !TargetsDistinct(xs, uuid);
        return Failure(InvalidImport);
      }
      MapsOneMore(mapped, xs, uuid, i);
      GrowsDistinct(xs, uuid, i);
      outputs := outputs + {target};
      mapped := mapped[x := target];
    }
    assert xs[..|xs|] == xs;
    if PROJECT !in mapped || exists x | x in mapped :: x.0 == "project" && x != PROJECT {
      return Failure(InvalidImport);
    }
    MapsInjectively(mapped, xs, uuid);
    r := Success(mapped);
  }

  lemma NotClosed(xs: seq<Identity>, wellFormed: Identity -> bool, i: nat)
    requires i < |xs| && !wellFormed(xs[i])
    ensures !Closed(xs, wellFormed)
  {
    assert xs[i] in xs;
  }

  lemma NotDistinct(xs: seq<Identity>, wellFormed: Identity -> bool, k: nat, i: nat)
    requires k < i < |xs| && xs[k] == xs[i]
    ensures !Closed(xs, wellFormed)
  {
  }

  lemma MapsOneMore(ids: IdMap, xs: seq<Identity>, uuid: Identity -> string, i: nat)
    requires i < |xs| && MapsAll(ids, xs[..i], uuid)
    ensures MapsAll(ids[xs[i] := uuid(xs[i])], xs[..i + 1], uuid)
  {
    assert xs[..i + 1] == xs[..i] + [xs[i]];
  }

  lemma GrowsDistinct(xs: seq<Identity>, uuid: Identity -> string, i: nat)
    requires i < |xs| && DistinctIdentities(xs[..i]) && TargetsDistinct(xs[..i], uuid)
    requires xs[i] !in xs[..i] && forall k | 0 <= k < i :: uuid(xs[k]) != uuid(xs[i])
    ensures DistinctIdentities(xs[..i + 1]) && TargetsDistinct(xs[..i + 1], uuid)
  {
    assert forall k | 0 <= k < i :: xs[..i][k] == xs[k] && xs[k] != xs[i];
  }

  lemma MapsInjectively(ids: IdMap, xs: seq<Identity>, uuid: Identity -> string)
    requires MapsAll(ids, xs, uuid) && TargetsDistinct(xs, uuid)
    ensures Injective(ids)
  {
    forall a, b | a in ids && b in ids && ids[a] == ids[b]
      ensures a == b
    {
      var i :| 0 <= i < |xs| && xs[i] == a;
      var j :| 0 <= j < |xs| && xs[j] == b;
      assert uuid(xs[i]) == uuid(xs[j]);
    }
  }
}
