/**
 * The canvas's drag-reorder controller: a drag index that is either unset or
 * the current position of the component being dragged, and the splice-based
 * move it commits on every drag-over of another component.
 */
module Canvas {
  import opened Js
  import Builder

  /** `a.splice(i, 1)` for an index inside the array. */
  function RemoveAt<T>(s: seq<T>, i: nat): seq<T>
    requires i < |s|
  {
    s[..i] + s[i + 1..]
  }

  /** `a.splice(j, 0, x)` for a position inside or at the end of the array. */
  function InsertAt<T>(s: seq<T>, j: nat, x: T): seq<T>
    requires j <= |s|
  {
    s[..j] + [x] + s[j..]
  }

  /** Copy, take out the element at from, and put it back in at to. */
  function Move<T>(s: seq<T>, from: nat, to: nat): (r: seq<T>)
    requires from < |s| && to < |s|
    ensures |r| == |s|
    ensures r[to] == s[from]
  {
    InsertAt(RemoveAt(s, from), to, s[from])
  }

  /**
   * Where every element of a move comes from: the moved element lands at to,
   * the elements between the two positions shift by one towards from, and
   * all others stay where they were.
   */
  lemma MoveAt<T>(s: seq<T>, from: nat, to: nat, k: nat)
    requires from < |s| && to < |s| && k < |s|
    ensures Move(s, from, to)[k] ==
      if k == to then s[from]
      else if from < to && from <= k < to then s[k + 1]
      else if to < from && to < k <= from then s[k - 1]
      else s[k]
  {
    var rest := RemoveAt(s, from);
    assert forall m :: 0 <= m < |rest| ==> rest[m] == if m < from then s[m] else s[m + 1];
    var r := InsertAt(rest, to, s[from]);
    assert forall m :: 0 <= m < |r| ==> r[m] == if m < to then rest[m] else if m == to then s[from] else rest[m - 1];
  }

  lemma MoveIsPermutation<T>(s: seq<T>, from: nat, to: nat)
    requires from < |s| && to < |s|
    ensures multiset(Move(s, from, to)) == multiset(s)
  {
    var rest := RemoveAt(s, from);
    calc {
      multiset(s);
    == { assert s == s[..from] + [s[from]] + s[from + 1..]; }
      multiset(s[..from]) + multiset{s[from]} + multiset(s[from + 1..]);
    ==
      multiset(rest) + multiset{s[from]};
    == { assert rest == rest[..to] + rest[to..]; }
      multiset(rest[..to]) + multiset{s[from]} + multiset(rest[to..]);
    ==
      multiset(Move(s, from, to));
    }
  }

  /** Moving back from to to from restores the original order. */
  lemma MoveBack<T>(s: seq<T>, from: nat, to: nat)
    requires from < |s| && to < |s|
    ensures Move(Move(s, from, to), to, from) == s
  {
    var t := Move(s, from, to);
    var u := Move(t, to, from);
    forall k | 0 <= k < |s| ensures u[k] == s[k] {
      MoveAt(t, to, from, k);
      if k == from {
        MoveAt(s, from, to, to);
      } else if to < from && to <= k < from {
        MoveAt(s, from, to, k + 1);
      } else if from < to && from < k <= to {
        MoveAt(s, from, to, k - 1);
      } else {
        MoveAt(s, from, to, k);
      }
    }
  }

  lemma MoveToItself<T>(s: seq<T>, i: nat)
    requires i < |s|
    ensures Move(s, i, i) == s
  {
    forall k | 0 <= k < |s| ensures Move(s, i, i)[k] == s[k] {
      MoveAt(s, i, i, k);
    }
  }

  class Canvas {
    /** The page whose components are rendered and which receives onUpdateComponent. */
    const builder: Builder.Builder
    var dragIndex: Option<nat>

    constructor (builder: Builder.Builder)
      ensures this.builder == builder && dragIndex == None
    {
      this.builder := builder;
      dragIndex := None;
    }

    /** An inline edit sends `{content}` for the edited component's id. */
    method HandleTextEdit(id: Option<Value>, newContent: string)
      requires builder.Valid()
      modifies builder`components, builder`history, builder`currentStep
      ensures builder.Valid()
      ensures builder.components == Builder.UpdateMatching(old(builder.components), id, Obj([("content", Str(newContent))]))
      ensures builder.history == old(builder.history[..builder.currentStep + 1]) + [builder.components]
      ensures builder.currentStep == old(builder.currentStep) + 1
    {
      builder.HandleUpdateComponent(id, Obj([("content", Str(newContent))]), None);
    }

    method HandleDragStart(index: nat)
      modifies this`dragIndex
      ensures dragIndex == Some(index)
    {
      dragIndex := Some(index);
    }

    /**
     * Over another component while dragging: move the dragged component
     * there, commit the new order, and track the component at its new index.
     */
    method HandleDragOverComponent(index: nat)
      requires builder.Valid()
      requires index < |builder.components|
      requires dragIndex.Some? ==> dragIndex.value < |builder.components|
      modifies this`dragIndex, builder`components, builder`history, builder`currentStep
      ensures builder.Valid()
      ensures old(dragIndex) == None || old(dragIndex) == Some(index) ==>
        dragIndex == old(dragIndex) && builder.components == old(builder.components) &&
        builder.history == old(builder.history) && builder.currentStep == old(builder.currentStep)
      ensures old(dragIndex).Some? && old(dragIndex) != Some(index) ==>
        dragIndex == Some(index) &&
        builder.components == Move(old(builder.components), old(dragIndex).value, index) &&
        builder.history == old(builder.history[..builder.currentStep + 1]) + [builder.components] &&
        builder.currentStep == old(builder.currentStep) + 1
      ensures old(dragIndex).Some? ==>
        dragIndex.Some? && dragIndex.value < |builder.components| &&
        builder.components[dragIndex.value] == old(builder.components[dragIndex.value])
    {
      if dragIndex == None || dragIndex == Some(index) {
        return;
      }
      var newComponents := Move(builder.components, dragIndex.value, index);
      forall k | 0 <= k < |newComponents| ensures UniqueKeys(newComponents[k]) {
        MoveAt(builder.components, dragIndex.value, index, k);
      }
      builder.HandleUpdateComponent(Some(Null), Null, Some(newComponents));
      dragIndex := Some(index);
    }

    method HandleDragEnd()
      modifies this`dragIndex
      ensures dragIndex == None
    {
      dragIndex := None;
    }
  }

  /**
   * On [a, b, c], a drag from 0 over 2 gives [b, c, a]; a further drag-over
   * at 0 gives [a, b, c] back, because the drag index followed the moved
   * component to 2.
   */
  method DragThereAndBack(a: Object, b: Object, c: Object)
    returns (afterFirst: seq<Object>, afterSecond: seq<Object>, finalIndex: Option<nat>)
    requires UniqueKeys(a) && UniqueKeys(b) && UniqueKeys(c)
    ensures afterFirst == [b, c, a]
    ensures afterSecond == [a, b, c]
    ensures finalIndex == Some(0)
  {
    var page := new Builder.Builder();
    page.UpdateComponents([a, b, c]);
    var canvas := new Canvas(page);
    canvas.HandleDragStart(0);
    canvas.HandleDragOverComponent(2);
    afterFirst := page.components;
    assert afterFirst == [b, c, a] by {
      MoveAt([a, b, c], 0, 2, 0);
      MoveAt([a, b, c], 0, 2, 1);
    }
    canvas.HandleDragOverComponent(0);
    afterSecond := page.components;
    MoveBack([a, b, c], 0, 2);
    finalIndex := canvas.dragIndex;
  }
}
