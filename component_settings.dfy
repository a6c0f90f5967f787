/**
 * The settings panel's patch builders. Each control sends `onUpdate(id,
 * patch)` with a sparse patch; nested `style`, `action` and `animation`
 * patches spread the component's current nested object and override one key,
 * so that after the page's shallow merge exactly that one nested key changes.
 */
module ComponentSettings {
  import opened Js
  import Builder

  datatype ActionOption = ActionOption(value: string, caption: string)

  /** The action choices offered for buttons and for images. */
  const ButtonActionTypes: seq<ActionOption> := [
    ActionOption("link", "Open Link"),
    ActionOption("scroll", "Scroll to Section"),
    ActionOption("modal", "Open Modal"),
    ActionOption("form", "Submit Form")
  ]

  const ImageActionTypes: seq<ActionOption> := [
    ActionOption("lightbox", "Open in Lightbox"),
    ActionOption("link", "Open Link"),
    ActionOption("gallery", "Show in Gallery")
  ]

  function Values(options: seq<ActionOption>): (r: seq<string>)
    ensures |r| == |options| && forall i :: 0 <= i < |r| ==> r[i] == options[i].value
  {
    seq(|options|, i requires 0 <= i < |options| => options[i].value)
  }

  lemma ActionChoices()
    ensures Values(ButtonActionTypes) == ["link", "scroll", "modal", "form"]
    ensures Values(ImageActionTypes) == ["lightbox", "link", "gallery"]
  {
  }

  /** A call `onUpdate(id, updates)`. */
  datatype UpdateRequest = UpdateRequest(id: Option<Value>, updates: Value)

  /** `{[field]: {...component[field], [key]: v}}` */
  function NestedPatch(component: Object, field: string, key: string, v: Value): Value
  {
    Obj([(field, Obj(Put(OwnEntries(Get(component, field)), key, v)))])
  }

  /**
   * after is before with field's nested object updated at key alone: the
   * nested key reads v, the other nested keys read what they read before (an
   * unset or non-object field counts as empty), the nested key order is the
   * old one with key appended if it is new, and every other top-level key is
   * unchanged.
   */
  ghost predicate SetsNestedKey(before: Object, after: Object, field: string, key: string, v: Value) {
    && (forall k :: k != field ==> Get(after, k) == Get(before, k))
    && Get(after, field).Some? && Get(after, field).value.Obj?
    && var nested := Get(after, field).value.entries;
    && var was := OwnEntries(Get(before, field));
    && Get(nested, key) == Some(v)
    && (forall q :: q != key ==> Get(nested, q) == Get(was, q))
    && Keys(nested) == if key in Keys(was) then Keys(was) else Keys(was) + [key]
  }

  /** after is before with key alone set to v. */
  ghost predicate SetsKey(before: Object, after: Object, key: string, v: Value) {
    && Get(after, key) == Some(v)
    && forall k :: k != key ==> Get(after, k) == Get(before, k)
  }

  lemma MergeSingleKey(component: Object, key: string, v: Value)
    ensures UniqueKeys(component) ==> SetsKey(component, Builder.Merge(component, Obj([(key, v)])), key, v)
  {
    var u: Object := [(key, v)];
    assert Keys(u) == [key];
    assert Get(u, key) == Some(v);
  }

  lemma MergeNestedPatch(component: Object, field: string, key: string, v: Value)
    ensures UniqueKeys(component) ==>
      SetsNestedKey(component, Builder.Merge(component, NestedPatch(component, field, key, v)), field, key, v)
  {
    var was := OwnEntries(Get(component, field));
    MergeSingleKey(component, field, Obj(Put(was, key, v)));
    forall q ensures Get(Put(was, key, v), q) == if q == key then Some(v) else Get(was, q) {
      GetPut(was, key, v, q);
    }
    KeysPut(was, key, v);
  }

  /** `handleStyleChange(property, value)` */
  function HandleStyleChange(component: Object, property: string, value: Value): (r: UpdateRequest)
    ensures r.id == Get(component, "id")
    ensures r.updates.Obj? && Keys(r.updates.entries) == ["style"]
    ensures UniqueKeys(component) ==>
      SetsNestedKey(component, Builder.Merge(component, r.updates), "style", property, value)
  {
    MergeNestedPatch(component, "style", property, value);
    UpdateRequest(Get(component, "id"), NestedPatch(component, "style", property, value))
  }

  /** `handleActionChange(action)`: the chosen action type; the URL and other action keys stay. */
  function HandleActionChange(component: Object, action: string): (r: UpdateRequest)
    ensures r.id == Get(component, "id")
    ensures r.updates.Obj? && Keys(r.updates.entries) == ["action"]
    ensures UniqueKeys(component) ==>
      SetsNestedKey(component, Builder.Merge(component, r.updates), "action", "type", Str(action))
  {
    MergeNestedPatch(component, "action", "type", Str(action));
    UpdateRequest(Get(component, "id"), NestedPatch(component, "action", "type", Str(action)))
  }

  /** The link URL field of a button or an image: the action type and other action keys stay. */
  function HandleUrlChange(component: Object, url: string): (r: UpdateRequest)
    ensures r.id == Get(component, "id")
    ensures r.updates.Obj? && Keys(r.updates.entries) == ["action"]
    ensures UniqueKeys(component) ==>
      SetsNestedKey(component, Builder.Merge(component, r.updates), "action", "url", Str(url))
  {
    MergeNestedPatch(component, "action", "url", Str(url));
    UpdateRequest(Get(component, "id"), NestedPatch(component, "action", "url", Str(url)))
  }

  /** The animation type select. */
  function HandleAnimationTypeChange(component: Object, animationType: string): (r: UpdateRequest)
    ensures r.id == Get(component, "id")
    ensures r.updates.Obj? && Keys(r.updates.entries) == ["animation"]
    ensures UniqueKeys(component) ==>
      SetsNestedKey(component, Builder.Merge(component, r.updates), "animation", "type", Str(animationType))
  {
    MergeNestedPatch(component, "animation", "type", Str(animationType));
    UpdateRequest(Get(component, "id"), NestedPatch(component, "animation", "type", Str(animationType)))
  }

  /** The duration field, given the number its text parses to. */
  function HandleDurationChange(component: Object, ms: int): (r: UpdateRequest)
    ensures r.id == Get(component, "id")
    ensures r.updates.Obj? && Keys(r.updates.entries) == ["animation"]
    ensures UniqueKeys(component) ==>
      SetsNestedKey(component, Builder.Merge(component, r.updates), "animation", "duration", Num(ms))
  {
    MergeNestedPatch(component, "animation", "duration", Num(ms));
    UpdateRequest(Get(component, "id"), NestedPatch(component, "animation", "duration", Num(ms)))
  }

  /** The delay field, given the number its text parses to. */
  function HandleDelayChange(component: Object, ms: int): (r: UpdateRequest)
    ensures r.id == Get(component, "id")
    ensures r.updates.Obj? && Keys(r.updates.entries) == ["animation"]
    ensures UniqueKeys(component) ==>
      SetsNestedKey(component, Builder.Merge(component, r.updates), "animation", "delay", Num(ms))
  {
    MergeNestedPatch(component, "animation", "delay", Num(ms));
    UpdateRequest(Get(component, "id"), NestedPatch(component, "animation", "delay", Num(ms)))
  }

  /** The text field of a header, a text block or a button. */
  function HandleContentChange(component: Object, content: string): (r: UpdateRequest)
    ensures r.id == Get(component, "id")
    ensures r.updates.Obj? && Keys(r.updates.entries) == ["content"]
    ensures UniqueKeys(component) ==>
      SetsKey(component, Builder.Merge(component, r.updates), "content", Str(content))
  {
    MergeSingleKey(component, "content", Str(content));
    UpdateRequest(Get(component, "id"), Obj([("content", Str(content))]))
  }

  /** The image URL field. */
  function HandleSrcChange(component: Object, src: string): (r: UpdateRequest)
    ensures r.id == Get(component, "id")
    ensures r.updates.Obj? && Keys(r.updates.entries) == ["src"]
    ensures UniqueKeys(component) ==>
      SetsKey(component, Builder.Merge(component, r.updates), "src", Str(src))
  {
    MergeSingleKey(component, "src", Str(src));
    UpdateRequest(Get(component, "id"), Obj([("src", Str(src))]))
  }

  /** `component[field]?.[key] || fallback`: what a settings control shows. */
  function Shown(component: Object, field: string, key: string, fallback: Value): (r: Value)
    ensures !Truthy(OptionalProp(Get(component, field), key)) ==> r == fallback
    ensures Truthy(OptionalProp(Get(component, field), key)) ==>
      Get(component, field).Some? && Get(component, field).value.Obj? &&
      Get(Get(component, field).value.entries, key) == Some(r)
  {
    Or(OptionalProp(Get(component, field), key), fallback)
  }

  /** The action select starts at `link` for a button and at `lightbox` for an image. */
  function ShownActionType(component: Object, isImage: bool): Value
  {
    Shown(component, "action", "type", Str(if isImage then "lightbox" else "link"))
  }

  function ShownAnimationType(component: Object): Value
  {
    Shown(component, "animation", "type", Str("none"))
  }

  function ShownDuration(component: Object): Value
  {
    Shown(component, "animation", "duration", Num(500))
  }

  function ShownDelay(component: Object): Value
  {
    Shown(component, "animation", "delay", Num(0))
  }

  /** The URL field is offered only when the action type is exactly `link`. */
  predicate ShowsUrlField(component: Object) {
    StrictEquals(OptionalProp(Get(component, "action"), "type"), Some(Str("link")))
  }

  /** The duration and delay fields are offered unless the animation type is exactly `none`. */
  predicate ShowsTimingFields(component: Object) {
    !StrictEquals(OptionalProp(Get(component, "animation"), "type"), Some(Str("none")))
  }

  lemma ShownDefaults(component: Object)
    requires Get(component, "action") == None && Get(component, "animation") == None
    ensures ShownActionType(component, false) == Str("link")
    ensures ShownActionType(component, true) == Str("lightbox")
    ensures ShownAnimationType(component) == Str("none")
    ensures ShownDuration(component) == Num(500)
    ensures ShownDelay(component) == Num(0)
    ensures !ShowsUrlField(component)
    // with no animation yet, the select shows "none" but the timing fields are offered
    ensures ShowsTimingFields(component)
  {
  }
}
