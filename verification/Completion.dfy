/** Filling what an author left open in a planned node, without touching what is written. */
module Completion {
  import opened Wrappers
  import opened Planning

  datatype Json = Null | Str(text: string) | Num(number: int) | Digest(hash: NodeHash) | Raw(json: string)
                | Arr(items: seq<Json>) | Obj(fields: map<string, Json>)

  /** What Python's strip leaves nothing of. */
  type Blankness = string -> bool

  const PROTECTED := {"id", "clientNodeKey", "revision", "contentHash", "order", "lifecycle", "volumeRef", "plotRefs"}

  /** Whether the new value only fills gaps of the old one, which stood under the given key. */
  predicate Fills(before: Json, after: Json, key: string, blank: Blankness)
    decreases before
  {
    if key in PROTECTED then before == after
    else
      match before
      case Obj(fields) =>
        && after.Obj? && fields.Keys == after.fields.Keys
        && forall k | k in fields :: k in after.fields && Fills(fields[k], after.fields[k], k, blank)
      case Arr(items) =>
        && after.Arr?
        && (items != [] ==> |items| == |after.items| && forall i | 0 <= i < |items| :: i < |after.items| && Fills(items[i], after.items[i], "", blank))
      case Str(text) => if blank(text) then after.Str? else before == after
      case _ => before == after
  }

  /** The patch laid over the old value: omitted keys keep what was there. */
  function Overlay(before: Json, patch: Json): Option<Json>
    decreases before
  {
    if before.Obj? && patch.Obj? then
      if !(patch.fields.Keys <= before.fields.Keys) then None
      else if forall k | k in before.fields && k in patch.fields :: Overlay(before.fields[k], patch.fields[k]).Some? then
        Some(Obj(map k | k in before.fields ::
                   if k in patch.fields then Overlay(before.fields[k], patch.fields[k]).value else before.fields[k]))
      else None
    else if before.Arr? && before.items != [] && patch.Arr? then
      if |before.items| != |patch.items| then None
      else if forall i | 0 <= i < |before.items| :: Overlay(before.items[i], patch.items[i]).Some? then
        Some(Arr(seq(|before.items|, i requires 0 <= i < |before.items| => Overlay(before.items[i], patch.items[i]).value)))
      else None
    else Some(patch)
  }

  /** The overlay, refused when it would overwrite anything. */
  function ApplyCompletionPatch(before: Json, patch: Json, blank: Blankness): Option<Json> {
    var result := Overlay(before, patch);
    if result.Some? && Fills(before, result.value, "", blank) then result else None
  }

  // ----- filling as a relation -----

  lemma {:induction false} FillsItself(a: Json, key: string, blank: Blankness)
    ensures Fills(a, a, key, blank)
    decreases a
  {
    if key !in PROTECTED {
      match a
      case Obj(fields) =>
        forall k | k in fields
          ensures Fills(fields[k], fields[k], k, blank)
        {
          FillsItself(fields[k], k, blank);
        }
      case Arr(items) =>
        forall i | 0 <= i < |items|
          ensures Fills(items[i], items[i], "", blank)
        {
          FillsItself(items[i], "", blank);
        }
      case _ =>
    }
  }

  /** However often a node is completed, what was written first is never overwritten. */
  lemma {:induction false} FillsTransitive(a: Json, b: Json, c: Json, key: string, blank: Blankness)
    requires Fills(a, b, key, blank) && Fills(b, c, key, blank)
    ensures Fills(a, c, key, blank)
    decreases a
  {
    if key !in PROTECTED {
      match a
      case Obj(fields) =>
        forall k | k in fields
          ensures Fills(fields[k], c.fields[k], k, blank)
        {
          FillsTransitive(fields[k], b.fields[k], c.fields[k], k, blank);
        }
      case Arr(items) =>
        forall i | 0 <= i < |items|
          ensures Fills(items[i], c.items[i], "", blank)
        {
          FillsTransitive(items[i], b.items[i], c.items[i], "", blank);
        }
      case _ =>
    }
  }

  /** A value with no gap: filling it is leaving it alone. */
  predicate Filled(a: Json, key: string, blank: Blankness)
    decreases a
  {
    key in PROTECTED ||
    match a
    case Obj(fields) => forall k | k in fields :: Filled(fields[k], k, blank)
    case Arr(items) => items != [] && forall i | 0 <= i < |items| :: Filled(items[i], "", blank)
    case Str(text) => !blank(text)
    case _ => true
  }

  lemma {:induction false} FilledIsFixed(a: Json, b: Json, key: string, blank: Blankness)
    requires Filled(a, key, blank) && Fills(a, b, key, blank)
    ensures a == b
    decreases a
  {
    if key !in PROTECTED {
      match a
      case Obj(fields) =>
        forall k | k in fields
          ensures fields[k] == b.fields[k]
        {
          FilledIsFixed(fields[k], b.fields[k], k, blank);
        }
        assert fields == b.fields;
      case Arr(items) =>
        forall i | 0 <= i < |items|
          ensures items[i] == b.items[i]
        {
          FilledIsFixed(items[i], b.items[i], "", blank);
        }
        assert items == b.items;
      case _ =>
    }
  }

  // ----- overlaying -----

  lemma {:induction false} OverlayItself(a: Json)
    ensures Overlay(a, a) == Some(a)
    decreases a
  {
    if a.Obj? {
      forall k | k in a.fields
        ensures Overlay(a.fields[k], a.fields[k]) == Some(a.fields[k])
      {
        OverlayItself(a.fields[k]);
      }
      assert Overlay(a, a).value.fields == a.fields;
    } else if a.Arr? && a.items != [] {
      forall i | 0 <= i < |a.items|
        ensures Overlay(a.items[i], a.items[i]) == Some(a.items[i])
      {
        OverlayItself(a.items[i]);
      }
      assert Overlay(a, a).value.items == a.items;
    }
  }

  /** Completing twice with one patch is completing once. */
  lemma {:induction false} OverlayTwice(a: Json, patch: Json)
    requires Overlay(a, patch).Some?
    ensures Overlay(Overlay(a, patch).value, patch) == Overlay(a, patch)
    decreases a
  {
    var r := Overlay(a, patch).value;
    if a.Obj? && patch.Obj? {
      forall k | k in patch.fields
        ensures Overlay(r.fields[k], patch.fields[k]) == Some(r.fields[k])
      {
        OverlayTwice(a.fields[k], patch.fields[k]);
      }
      assert Overlay(r, patch).value.fields == r.fields;
    } else if a.Arr? && a.items != [] && patch.Arr? {
      forall i | 0 <= i < |a.items|
        ensures Overlay(r.items[i], patch.items[i]) == Some(r.items[i])
      {
        OverlayTwice(a.items[i], patch.items[i]);
      }
      assert Overlay(r, patch).value.items == r.items;
    } else {
      OverlayItself(patch);
    }
  }

  /** An accepted patch only fills, so it can be applied again and changes nothing more. */
  lemma CompletionIsIdempotent(before: Json, patch: Json, blank: Blankness)
    requires ApplyCompletionPatch(before, patch, blank).Some?
    ensures var once := ApplyCompletionPatch(before, patch, blank).value;
            Fills(before, once, "", blank) && ApplyCompletionPatch(once, patch, blank) == Some(once)
  {
    hide Fills, Overlay;
    var once := Overlay(before, patch).value;
    OverlayTwice(before, patch);
    FillsItself(once, "", blank);
  }
}
