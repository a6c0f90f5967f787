/**
 * The page builder's editing state: the live component list, a linear
 * snapshot history with a cursor, and the edits that commit to it.
 */
module Builder {
  import opened Js

  /** `{...comp, ...updates}`: the shallow merge of a patch into a component. */
  function Merge(comp: Object, updates: Value): (r: Object)
    ensures UniqueKeys(r)
    ensures UniqueKeys(comp) && UniqueKeys(OwnEntries(Some(updates))) ==>
      forall k :: Get(r, k) ==
        if k in Keys(OwnEntries(Some(updates))) then Get(OwnEntries(Some(updates)), k) else Get(comp, k)
  {
    var copy := Spread([], comp);
    var u := OwnEntries(Some(updates));
    SpreadUnique([], comp);
    SpreadUnique(copy, u);
    GetCopySpread(comp, u);
    Spread(copy, u)
  }

  lemma GetCopySpread(o: Object, p: Object)
    ensures UniqueKeys(o) && UniqueKeys(p) ==>
      forall k :: Get(Spread(Spread([], o), p), k) == if k in Keys(p) then Get(p, k) else Get(o, k)
  {
    if UniqueKeys(o) && UniqueKeys(p) {
      forall k ensures Get(Spread(Spread([], o), p), k) == if k in Keys(p) then Get(p, k) else Get(o, k) {
        GetSpread([], o, k);
        GetSpread(Spread([], o), p, k);
      }
    }
  }

  /** The component a drop adds: `{...comp, id: now}`, where now stands for `Date.now()`. */
  function WithId(comp: Value, now: nat): (r: Object)
    ensures UniqueKeys(r)
    ensures Get(r, "id") == Some(Num(now))
    ensures UniqueKeys(OwnEntries(Some(comp))) ==>
      forall k :: k != "id" ==> Get(r, k) == Get(OwnEntries(Some(comp)), k)
  {
    var e := OwnEntries(Some(comp));
    var copy := Spread([], e);
    SpreadUnique([], e);
    PutUnique(copy, "id", Num(now));
    GetCopyPut(e, "id", Num(now));
    Put(copy, "id", Num(now))
  }

  lemma GetCopyPut(o: Object, key: string, v: Value)
    ensures Get(Put(Spread([], o), key, v), key) == Some(v)
    ensures UniqueKeys(o) ==> forall k :: k != key ==> Get(Put(Spread([], o), key, v), k) == Get(o, k)
  {
    GetPut(Spread([], o), key, v, key);
    if UniqueKeys(o) {
      forall k | k != key ensures Get(Put(Spread([], o), key, v), k) == Get(o, k) {
        GetPut(Spread([], o), key, v, k);
        GetSpread([], o, k);
      }
    }
  }

  /** Every component of the list has unique keys, as every object the program builds does. */
  predicate AllUniqueKeys(cs: seq<Object>) {
    forall j :: 0 <= j < |cs| ==> UniqueKeys(cs[j])
  }

  predicate Matches(comp: Object, id: Option<Value>) {
    StrictEquals(Get(comp, "id"), id)
  }

  /** `components.map(comp => comp.id === id ? {...comp, ...updates} : comp)` */
  function UpdateMatching(components: seq<Object>, id: Option<Value>, updates: Value): (r: seq<Object>)
    ensures |r| == |components|
    ensures forall i :: 0 <= i < |r| && !Matches(components[i], id) ==> r[i] == components[i]
    ensures forall i, k ::
      (0 <= i < |r| && Matches(components[i], id) &&
       UniqueKeys(components[i]) && UniqueKeys(OwnEntries(Some(updates)))) ==>
        Get(r[i], k) ==
          if k in Keys(OwnEntries(Some(updates))) then Get(OwnEntries(Some(updates)), k)
          else Get(components[i], k)
    ensures (forall i :: 0 <= i < |components| ==> !Matches(components[i], id)) ==> r == components
    ensures AllUniqueKeys(components) ==> AllUniqueKeys(r)
  {
    seq(|components|, i requires 0 <= i < |components| =>
      if Matches(components[i], id) then Merge(components[i], updates) else components[i])
  }

  class Builder {
    var components: seq<Object>
    var title: string
    var history: seq<seq<Object>>
    var currentStep: nat

    /**
     * The live list is always the snapshot under the cursor, and every
     * snapshot's components have unique keys.
     */
    ghost predicate Valid()
      reads this
    {
      && currentStep < |history| && components == history[currentStep]
      && forall i :: 0 <= i < |history| ==> AllUniqueKeys(history[i])
    }

    constructor ()
      ensures Valid()
      ensures components == [] && title == "" && history == [[]] && currentStep == 0
    {
      components := [];
      title := "";
      history := [[]];
      currentStep := 0;
    }

    /** The single commit path: prune the redo branch, push, move the cursor to the end. */
    method UpdateComponents(newComponents: seq<Object>)
      requires Valid() && AllUniqueKeys(newComponents)
      modifies this`components, this`history, this`currentStep
      ensures Valid()
      ensures history == old(history[..currentStep + 1]) + [newComponents]
      ensures currentStep == |history| - 1 == old(currentStep) + 1
      ensures components == newComponents
    {
      components := newComponents;
      var newHistory := history[..currentStep + 1];
      newHistory := newHistory + [newComponents];
      history := newHistory;
      currentStep := |newHistory| - 1;
    }

    method HandleDrop(comp: Value, now: nat)
      requires Valid()
      modifies this`components, this`history, this`currentStep
      ensures Valid()
      ensures |components| == |old(components)| + 1
      ensures components[..|old(components)|] == old(components)
      ensures components[|components| - 1] == WithId(comp, now)
      ensures history == old(history[..currentStep + 1]) + [components]
      ensures currentStep == old(currentStep) + 1
    {
      var newComponents := components + [WithId(comp, now)];
      assert AllUniqueKeys(newComponents) by {
        assert forall j :: 0 <= j < |components| ==> newComponents[j] == components[j];
      }
      UpdateComponents(newComponents);
    }

    /**
     * With a replacement list, commits it as is; otherwise merges updates into
     * every component whose id is strictly equal to id and commits the result,
     * even when nothing matched.
     */
    method HandleUpdateComponent(id: Option<Value>, updates: Value, newComponents: Option<seq<Object>>)
      requires Valid()
      requires newComponents.Some? ==> AllUniqueKeys(newComponents.value)
      modifies this`components, this`history, this`currentStep
      ensures Valid()
      ensures newComponents.Some? ==> components == newComponents.value
      ensures newComponents.None? ==> components == UpdateMatching(old(components), id, updates)
      ensures newComponents.None? && UniqueKeys(OwnEntries(Some(updates))) ==>
        forall i, k :: 0 <= i < |components| && Matches(old(components[i]), id) ==>
          Get(components[i], k) ==
            if k in Keys(OwnEntries(Some(updates))) then Get(OwnEntries(Some(updates)), k)
            else Get(old(components[i]), k)
      ensures history == old(history[..currentStep + 1]) + [components]
      ensures currentStep == old(currentStep) + 1
    {
      if newComponents.Some? {
        UpdateComponents(newComponents.value);
        return;
      }
      var updatedComponents := UpdateMatching(components, id, updates);
      UpdateComponents(updatedComponents);
    }

    method HandleUndo()
      requires Valid()
      modifies this`components, this`currentStep
      ensures Valid() && history == old(history)
      ensures old(currentStep) == 0 ==> currentStep == 0 && components == old(components)
      ensures old(currentStep) > 0 ==> currentStep == old(currentStep) - 1 && components == history[currentStep]
    {
      if currentStep > 0 {
        currentStep := currentStep - 1;
        components := history[currentStep];
      }
    }

    method HandleRedo()
      requires Valid()
      modifies this`components, this`currentStep
      ensures Valid() && history == old(history)
      ensures old(currentStep) == |history| - 1 ==> currentStep == old(currentStep) && components == old(components)
      ensures old(currentStep) < |history| - 1 ==> currentStep == old(currentStep) + 1 && components == history[currentStep]
    {
      if currentStep < |history| - 1 {
        currentStep := currentStep + 1;
        components := history[currentStep];
      }
    }

    /** The title is edited directly and is not part of the history. */
    method SetTitle(t: string)
      modifies this`title
      ensures title == t
    {
      title := t;
    }
  }

  /**
   * commit(a), commit(b), undo gives back a; a further commit(c) prunes the
   * b branch, so the redo that follows changes nothing.
   */
  method PrunedRedo(a: seq<Object>, b: seq<Object>, c: seq<Object>)
    returns (afterUndo: seq<Object>, redoChanged: bool, finalHistory: seq<seq<Object>>)
    requires AllUniqueKeys(a) && AllUniqueKeys(b) && AllUniqueKeys(c)
    ensures afterUndo == a
    ensures !redoChanged
    ensures finalHistory == [[], a, c]
  {
    var e := new Builder();
    e.UpdateComponents(a);
    e.UpdateComponents(b);
    e.HandleUndo();
    afterUndo := e.components;
    e.UpdateComponents(c);
    var step, live := e.currentStep, e.components;
    e.HandleRedo();
    redoChanged := e.currentStep != step || e.components != live;
    finalHistory := e.history;
  }
}
