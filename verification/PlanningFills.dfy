/** What filling a block or a volume means for its nodes: everything written stays, node by node and field by field. */
module PlanningFills {
  import opened Wrappers
  import opened Planning
  import opened Completion
  import opened PlanningExpansion

  /** The keys of a node's JSON that are not fields of its own. */
  const STRUCTURE := {"id", "clientNodeKey", "revision", "contentHash", "order", "lifecycle", "volumeRef", "plotRefs", "stages", "sceneTasks"}

  /** A written text stays, a blank one becomes any text; an empty list any list, a filled one keeps its length and written texts. */
  predicate ValueFilled(v: FieldValue, w: FieldValue, blank: Blankness) {
    match v
    case Text(t) => w.Text? && (!blank(t) ==> w.text == t)
    case Texts(xs) =>
      w.Texts? && (xs != [] ==> |w.texts| == |xs| && forall i | 0 <= i < |xs| && !blank(xs[i]) :: w.texts[i] == xs[i])
    case Design(_) => w.Design?
    case OtherJson(_) => w == v
  }

  predicate NodeFilled(x: DraftNode, y: DraftNode, blank: Blankness) {
    && y.identity == x.identity && y.order == x.order && y.lifecycle == x.lifecycle
    && (forall k | k in x.body.fields && k !in STRUCTURE ::
          k in y.body.fields && ValueFilled(x.body.fields[k], y.body.fields[k], blank))
    && (forall k | k in y.body.fields && k !in STRUCTURE :: k in x.body.fields)
    && (x.body.DraftBlock? && y.body.DraftBlock? ==> y.body.volumeRef == x.body.volumeRef && y.body.plotRefs == x.body.plotRefs)
  }

  predicate StageFilled(x: StageDraft, y: StageDraft, blank: Blankness) {
    && NodeFilled(x.node, y.node, blank)
    && (x.tasks != [] ==> |y.tasks| == |x.tasks| && forall i | 0 <= i < |x.tasks| :: NodeFilled(x.tasks[i], y.tasks[i], blank))
  }

  predicate BlockFilled(x: BlockDraft, y: BlockDraft, blank: Blankness) {
    && NodeFilled(x.node, y.node, blank)
    && (x.stages != [] ==> |y.stages| == |x.stages| && forall i | 0 <= i < |x.stages| :: StageFilled(x.stages[i], y.stages[i], blank))
  }

  // ----- values -----

  lemma ValueFills(v: FieldValue, w: FieldValue, key: string, blank: Blankness)
    requires Fills(FieldJson(v), FieldJson(w), key, blank) && key !in PROTECTED
    ensures ValueFilled(v, w, blank)
  {
    if v.Texts? {
      var xs := v.texts;
      assert w.Texts?;
      if xs != [] {
        assert TextsJson(xs).items != [];
        forall i | 0 <= i < |xs| && !blank(xs[i])
          ensures w.texts[i] == xs[i]
        {
          assert "" !in PROTECTED;
          assert Fills(TextsJson(xs).items[i], TextsJson(w.texts).items[i], "", blank);
        }
      }
    }
  }

  /** The object is the node's JSON, but for its list of children. */
  predicate Shows(m: map<string, Json>, x: DraftNode) {
    var json := NodeJson(x);
    && (forall k | k in json && k != "stages" && k != "sceneTasks" :: k in m && m[k] == json[k])
    && (forall k | k in m && k != "stages" && k != "sceneTasks" :: k in json)
  }

  lemma StructureKeys(x: DraftNode)
    ensures IdentityJson(x).Keys == {"id", "clientNodeKey", "revision", "contentHash"}
    ensures RelationJson(x.body).Keys == if x.body.DraftBlock? then {"volumeRef", "plotRefs"} else {}
  {
    hide TextsJson;
  }

  lemma JsonFields(x: DraftNode)
    ensures var json := NodeJson(x);
            forall k | k !in STRUCTURE :: (k in json <==> k in x.body.fields) && (k in json ==> json[k] == FieldJson(x.body.fields[k]))
  {
    hide FieldJson, IdentityJson, RelationJson, LifecycleJson;
    StructureKeys(x);
  }

  lemma JsonStructure(x: DraftNode)
    ensures var json := NodeJson(x);
            && (forall k | k in IdentityJson(x) :: k in json && json[k] == IdentityJson(x)[k])
            && "order" in json && json["order"] == Num(x.order)
            && "lifecycle" in json && json["lifecycle"] == LifecycleJson(x.lifecycle)
            && (forall k | k in RelationJson(x.body) :: k in json && json[k] == RelationJson(x.body)[k])
  {
    hide FieldJson, IdentityJson, RelationJson, LifecycleJson;
    StructureKeys(x);
  }

  lemma JsonOfNode(x: DraftNode)
    ensures var json := NodeJson(x);
            && (forall k | k !in STRUCTURE :: (k in json <==> k in x.body.fields) && (k in json ==> json[k] == FieldJson(x.body.fields[k])))
            && "id" in json && "clientNodeKey" in json && "revision" in json && "contentHash" in json
            && json["id"] == IdentityJson(x)["id"] && json["clientNodeKey"] == IdentityJson(x)["clientNodeKey"]
            && json["revision"] == IdentityJson(x)["revision"] && json["contentHash"] == IdentityJson(x)["contentHash"]
            && "order" in json && json["order"] == Num(x.order)
            && "lifecycle" in json && json["lifecycle"] == LifecycleJson(x.lifecycle)
            && (x.body.DraftBlock? ==>
                  "volumeRef" in json && json["volumeRef"] == Str(x.body.volumeRef)
                  && "plotRefs" in json && json["plotRefs"] == TextsJson(x.body.plotRefs))
  {
    hide NodeJson, FieldJson, TextsJson, IdentityJson, LifecycleJson;
    StructureKeys(x);
    JsonFields(x);
    JsonStructure(x);
  }

  lemma TextsJsonInjective(xs: seq<string>, ys: seq<string>)
    requires TextsJson(xs) == TextsJson(ys)
    ensures xs == ys
  {
    assert |TextsJson(xs).items| == |xs| && |TextsJson(ys).items| == |ys|;
    forall i | 0 <= i < |xs|
      ensures xs[i] == ys[i]
    {
      assert TextsJson(xs).items[i] == TextsJson(ys).items[i];
    }
  }

  /** Protected entries are equal. */
  lemma ProtectedEqual(m: map<string, Json>, w: map<string, Json>, k: string, blank: Blankness)
    requires Fills(Obj(m), Obj(w), "", blank) && k in m && k in PROTECTED
    ensures k in w && w[k] == m[k]
  {
    assert "" !in PROTECTED;
    assert Fills(m[k], w[k], k, blank);
  }

  lemma EntryFilled(m: map<string, Json>, w: map<string, Json>, k: string, blank: Blankness)
    requires Fills(Obj(m), Obj(w), "", blank)
    ensures k in m <==> k in w
    ensures k in m ==> Fills(m[k], w[k], k, blank)
  {
    assert "" !in PROTECTED;
  }

  lemma NodeFills(m: map<string, Json>, w: map<string, Json>, x: DraftNode, y: DraftNode, blank: Blankness)
    requires Fills(Obj(m), Obj(w), "", blank) && Shows(m, x) && Shows(w, y)
    ensures NodeFilled(x, y, blank)
  {
    hide Fills, NodeJson, FieldJson, TextsJson, ValueFilled;
    JsonOfNode(x);
    JsonOfNode(y);
    forall k | k in PROTECTED
      ensures k in m ==> k in w && w[k] == m[k]
    {
      if k in m {
        ProtectedEqual(m, w, k, blank);
      }
    }
    IdentitiesAgree(x, y);
    forall k | k !in STRUCTURE
      ensures k in x.body.fields <==> k in y.body.fields
      ensures k in x.body.fields ==> ValueFilled(x.body.fields[k], y.body.fields[k], blank)
    {
      EntryFilled(m, w, k, blank);
      if k in x.body.fields {
        ValueFills(x.body.fields[k], y.body.fields[k], k, blank);
      }
    }
    if x.body.DraftBlock? && y.body.DraftBlock? {
      TextsJsonInjective(x.body.plotRefs, y.body.plotRefs);
    }
  }

  lemma IdentitiesAgree(x: DraftNode, y: DraftNode)
    requires IdentityJson(x)["id"] == IdentityJson(y)["id"] && IdentityJson(x)["clientNodeKey"] == IdentityJson(y)["clientNodeKey"]
    requires IdentityJson(x)["revision"] == IdentityJson(y)["revision"]
    requires IdentityJson(x)["contentHash"] == IdentityJson(y)["contentHash"]
    ensures x.identity == y.identity
  {
  }

  // ----- levels -----

  lemma FlatShows(x: DraftNode)
    ensures Shows(NodeJson(x), x)
  {
    hide NodeJson;
  }

  lemma ChildShows(x: DraftNode, key: string, children: Json)
    requires key == "stages" || key == "sceneTasks"
    ensures Shows(NodeJson(x)[key := children], x)
  {
    hide NodeJson;
  }

  lemma FlatFills(x: DraftNode, y: DraftNode, blank: Blankness)
    requires Fills(FlatJson(x), FlatJson(y), "", blank)
    ensures NodeFilled(x, y, blank)
  {
    hide NodeJson, Fills, Shows, NodeFilled;
    FlatShows(x);
    FlatShows(y);
    NodeFills(NodeJson(x), NodeJson(y), x, y, blank);
  }

  lemma ChildrenFill(m: map<string, Json>, w: map<string, Json>, key: string, xs: seq<Json>, ys: seq<Json>, blank: Blankness)
    requires Fills(Obj(m[key := Arr(xs)]), Obj(w[key := Arr(ys)]), "", blank) && key !in PROTECTED && xs != []
    ensures |ys| == |xs| && forall i | 0 <= i < |xs| :: Fills(xs[i], ys[i], "", blank)
  {
    EntryFilled(m[key := Arr(xs)], w[key := Arr(ys)], key, blank);
    assert Fills(Arr(xs), Arr(ys), key, blank);
  }

  lemma StageFills(x: StageDraft, y: StageDraft, blank: Blankness)
    requires Fills(StageJson(x), StageJson(y), "", blank)
    ensures StageFilled(x, y, blank)
  {
    hide NodeJson, Fills, Shows, NodeFilled, FlatJson;
    ChildShows(x.node, "sceneTasks", StageJson(x).fields["sceneTasks"]);
    ChildShows(y.node, "sceneTasks", StageJson(y).fields["sceneTasks"]);
    NodeFills(StageJson(x).fields, StageJson(y).fields, x.node, y.node, blank);
    var xs, ys := StageJson(x).fields["sceneTasks"].items, StageJson(y).fields["sceneTasks"].items;
    if x.tasks != [] {
      ChildrenFill(NodeJson(x.node), NodeJson(y.node), "sceneTasks", xs, ys, blank);
      forall i | 0 <= i < |x.tasks|
        ensures i < |y.tasks| && NodeFilled(x.tasks[i], y.tasks[i], blank)
      {
        assert xs[i] == FlatJson(x.tasks[i]) && ys[i] == FlatJson(y.tasks[i]);
        FlatFills(x.tasks[i], y.tasks[i], blank);
      }
    }
  }

  /** A block that is filled keeps all that was written, in the block and in every stage and task it had. */
  lemma BlockFillsMeans(x: BlockDraft, y: BlockDraft, blank: Blankness)
    requires BlockFills(x, y, blank)
    ensures BlockFilled(x, y, blank)
  {
    hide NodeJson, Fills, Shows, NodeFilled, StageJson, StageFilled;
    ChildShows(x.node, "stages", BlockJson(x).fields["stages"]);
    ChildShows(y.node, "stages", BlockJson(y).fields["stages"]);
    NodeFills(BlockJson(x).fields, BlockJson(y).fields, x.node, y.node, blank);
    var xs, ys := BlockJson(x).fields["stages"].items, BlockJson(y).fields["stages"].items;
    if x.stages != [] {
      ChildrenFill(NodeJson(x.node), NodeJson(y.node), "stages", xs, ys, blank);
      forall i | 0 <= i < |x.stages|
        ensures i < |y.stages| && StageFilled(x.stages[i], y.stages[i], blank)
      {
        assert xs[i] == StageJson(x.stages[i]) && ys[i] == StageJson(y.stages[i]);
        StageFills(x.stages[i], y.stages[i], blank);
      }
    }
  }

  /** A volume that is filled keeps all that was written. */
  lemma VolumeFillsMeans(x: DraftNode, y: DraftNode, blank: Blankness)
    requires VolumeFills(x, y, blank)
    ensures NodeFilled(x, y, blank)
  {
    FlatFills(x, y, blank);
  }
}
