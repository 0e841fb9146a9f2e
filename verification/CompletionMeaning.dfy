/** Which completion patches are accepted, and what an accepted one leaves at every place of the node. */
module CompletionMeaning {
  import opened Wrappers
  import opened Planning
  import opened Completion

  // ----- when a patch is accepted -----

  /** Laid over the value, the patch repeats it. */
  predicate Repeats(before: Json, patch: Json)
    decreases before
  {
    if before.Obj? && patch.Obj? then
      && patch.fields.Keys <= before.fields.Keys
      && forall k | k in before.fields && k in patch.fields :: Repeats(before.fields[k], patch.fields[k])
    else if before.Arr? && before.items != [] && patch.Arr? then
      && |before.items| == |patch.items|
      && forall i | 0 <= i < |before.items| :: Repeats(before.items[i], patch.items[i])
    else before == patch
  }

  /**
    The patch knows the value's shape and writes only where there is a blank text or an
    empty list; protected keys and whatever is written it can only repeat.
  */
  predicate Suits(before: Json, patch: Json, key: string, blank: Blankness)
    decreases before
  {
    if key in {"id", "clientNodeKey", "revision", "contentHash", "order", "lifecycle", "volumeRef", "plotRefs"} then
      Repeats(before, patch)
    else
      match before
      case Obj(fields) =>
        && patch.Obj? && patch.fields.Keys <= fields.Keys
        && forall k | k in fields && k in patch.fields :: Suits(fields[k], patch.fields[k], k, blank)
      case Arr(items) =>
        && patch.Arr?
        && (items != [] ==>
              |items| == |patch.items| && forall i | 0 <= i < |items| :: Suits(items[i], patch.items[i], "", blank))
      case Str(text) => if blank(text) then patch.Str? else patch == before
      case _ => patch == before
  }

  lemma {:induction false} RepeatsIs(before: Json, patch: Json)
    ensures Repeats(before, patch) <==> Overlay(before, patch) == Some(before)
    decreases before
  {
    if before.Obj? && patch.Obj? {
      forall k | k in before.fields && k in patch.fields
        ensures Repeats(before.fields[k], patch.fields[k]) <==> Overlay(before.fields[k], patch.fields[k]) == Some(before.fields[k])
      {
        RepeatsIs(before.fields[k], patch.fields[k]);
      }
      if Repeats(before, patch) {
        assert Overlay(before, patch).value.fields == before.fields;
      }
    } else if before.Arr? && before.items != [] && patch.Arr? {
      if |before.items| == |patch.items| {
        forall i | 0 <= i < |before.items|
          ensures Repeats(before.items[i], patch.items[i]) <==> Overlay(before.items[i], patch.items[i]) == Some(before.items[i])
        {
          RepeatsIs(before.items[i], patch.items[i]);
        }
        if Repeats(before, patch) {
          assert Overlay(before, patch).value.items == before.items;
        }
      }
    }
  }

  lemma {:induction false} SuitsIs(before: Json, patch: Json, key: string, blank: Blankness)
    ensures Suits(before, patch, key, blank) <==>
              Overlay(before, patch).Some? && Fills(before, Overlay(before, patch).value, key, blank)
    decreases before
  {
    if key in PROTECTED {
      RepeatsIs(before, patch);
    } else if before.Obj? && patch.Obj? {
      forall k | k in before.fields
        ensures k in patch.fields ==>
                  (Suits(before.fields[k], patch.fields[k], k, blank) <==>
                     Overlay(before.fields[k], patch.fields[k]).Some?
                     && Fills(before.fields[k], Overlay(before.fields[k], patch.fields[k]).value, k, blank))
        ensures Fills(before.fields[k], before.fields[k], k, blank)
      {
        FillsItself(before.fields[k], k, blank);
        if k in patch.fields {
          SuitsIs(before.fields[k], patch.fields[k], k, blank);
        }
      }
      if Overlay(before, patch).Some? {
        assert Overlay(before, patch).value.fields.Keys == before.fields.Keys;
      }
    } else if before.Arr? && before.items != [] && patch.Arr? {
      if |before.items| == |patch.items| {
        forall i | 0 <= i < |before.items|
          ensures Suits(before.items[i], patch.items[i], "", blank) <==>
                    Overlay(before.items[i], patch.items[i]).Some?
                    && Fills(before.items[i], Overlay(before.items[i], patch.items[i]).value, "", blank)
        {
          SuitsIs(before.items[i], patch.items[i], "", blank);
        }
      }
    }
  }

  /** A patch is accepted exactly when it suits the node. */
  lemma AcceptedIffSuits(before: Json, patch: Json, blank: Blankness)
    ensures ApplyCompletionPatch(before, patch, blank).Some? <==> Suits(before, patch, "", blank)
  {
    hide Suits, Overlay, Fills;
    SuitsIs(before, patch, "", blank);
  }

  // ----- what it leaves -----

  datatype Place = Key(name: string) | Index(number: nat)

  /** The value at a place, if the place exists. */
  function At(j: Json, path: seq<Place>): Option<Json>
    decreases |path|
  {
    if path == [] then Some(j)
    else
      match path[0]
      case Key(name) => if j.Obj? && name in j.fields then At(j.fields[name], path[1..]) else None
      case Index(n) => if j.Arr? && n < |j.items| then At(j.items[n], path[1..]) else None
  }

  /** A text, a number, an empty list, or whatever else has no places inside. */
  predicate Leaf(j: Json) { !j.Obj? && (j.Arr? ==> j.items == []) }

  /** A leaf the patch speaks of holds the patch's value, every other one what it held. */
  lemma {:induction false} LeafAfter(before: Json, patch: Json, key: string, blank: Blankness, path: seq<Place>)
    requires Suits(before, patch, key, blank) && At(before, path).Some? && Leaf(At(before, path).value)
    requires Overlay(before, patch).Some?
    ensures At(Overlay(before, patch).value, path) ==
              if At(patch, path).Some? then At(patch, path) else At(before, path)
    decreases |path|
  {
    if key in PROTECTED {
      RepeatsIs(before, patch);
      RepeatedLeaf(before, patch, path);
    } else if path != [] {
      match path[0]
      case Key(name) =>
        if name in patch.fields {
          SuitsIs(before.fields[name], patch.fields[name], name, blank);
          LeafAfter(before.fields[name], patch.fields[name], name, blank, path[1..]);
        }
      case Index(n) =>
        SuitsIs(before.items[n], patch.items[n], "", blank);
        LeafAfter(before.items[n], patch.items[n], "", blank, path[1..]);
    }
  }

  lemma {:induction false} RepeatedLeaf(before: Json, patch: Json, path: seq<Place>)
    requires Repeats(before, patch) && At(before, path).Some? && Leaf(At(before, path).value)
    ensures At(patch, path).Some? ==> At(patch, path) == At(before, path)
    decreases |path|
  {
    if path != [] {
      match path[0]
      case Key(name) =>
        if patch.Obj? && name in patch.fields {
          RepeatedLeaf(before.fields[name], patch.fields[name], path[1..]);
        }
      case Index(n) =>
        if patch.Arr? && n < |patch.items| {
          RepeatedLeaf(before.items[n], patch.items[n], path[1..]);
        }
    }
  }

  /** An accepted completion takes the patch's value wherever the patch has one, and keeps the rest. */
  lemma CompletionTakesThePatch(before: Json, patch: Json, blank: Blankness, path: seq<Place>)
    requires ApplyCompletionPatch(before, patch, blank).Some? && At(before, path).Some? && Leaf(At(before, path).value)
    ensures At(ApplyCompletionPatch(before, patch, blank).value, path) ==
              if At(patch, path).Some? then At(patch, path) else At(before, path)
  {
    hide Suits, Overlay, Fills, At, Leaf;
    SuitsIs(before, patch, "", blank);
    LeafAfter(before, patch, "", blank, path);
  }
}
