/**
 * The server's website controller, without its database and HTTP parts: the
 * allow-list check and field assignment of an update, the export file name,
 * and the static export compiler (markup, one style rule block per component,
 * and click handlers for scroll actions).
 */
module WebsiteController {
  import opened Js

  // ---------------------------------------------------------------------------
  // Updating a stored website

  const AllowedUpdates: seq<string> := ["title", "description", "components", "isPublished"]

  /** `updates.every(update => allowedUpdates.includes(update))` */
  function IsValidOperation(updates: seq<string>): (r: bool)
    ensures r <==> forall i :: 0 <= i < |updates| ==> updates[i] in AllowedUpdates
  {
    if updates == [] then true
    else updates[0] in AllowedUpdates && IsValidOperation(updates[1..])
  }

  datatype UpdateOutcome = Updated | InvalidUpdates

  /** The value a field holds after an accepted update: the body's value if the body lists it. */
  function Assigned(body: Object, key: string, was: Value): (r: Value)
    ensures key in Keys(body) ==> Get(body, key) == Some(r)
    ensures key !in Keys(body) ==> r == was
  {
    match Get(body, key)
    case Some(v) => v
    case None => was
  }

  /** A website document as loaded from the store. */
  class Website {
    var title: Value
    var description: Value
    var components: Value
    var isPublished: Value
    var owner: Value
    var publishedUrl: Option<Value>
    var createdAt: Value
    var updatedAt: Value

    constructor (title: Value, description: Value, components: Value, isPublished: Value,
                 owner: Value, publishedUrl: Option<Value>, createdAt: Value, updatedAt: Value)
      ensures this.title == title && this.description == description
      ensures this.components == components && this.isPublished == isPublished
      ensures this.owner == owner && this.publishedUrl == publishedUrl
      ensures this.createdAt == createdAt && this.updatedAt == updatedAt
    {
      this.title := title;
      this.description := description;
      this.components := components;
      this.isPublished := isPublished;
      this.owner := owner;
      this.publishedUrl := publishedUrl;
      this.createdAt := createdAt;
      this.updatedAt := updatedAt;
    }

    /** `website[name] = v` for one of the updatable fields; any other name changes none of them. */
    method SetField(name: string, v: Value)
      modifies this`title, this`description, this`components, this`isPublished
      ensures title == if name == "title" then v else old(title)
      ensures description == if name == "description" then v else old(description)
      ensures components == if name == "components" then v else old(components)
      ensures isPublished == if name == "isPublished" then v else old(isPublished)
    {
      FieldNamesDistinct();
      if name == "title" {
        title := v;
      } else if name == "description" {
        description := v;
      } else if name == "components" {
        components := v;
      } else if name == "isPublished" {
        isPublished := v;
      }
    }

    /**
     * Rejects the body if any of its keys is outside the allow-list;
     * otherwise assigns each listed field from the body, in key order.
     */
    method ApplyUpdates(body: Object) returns (outcome: UpdateOutcome)
      modifies this`title, this`description, this`components, this`isPublished
      ensures outcome == if IsValidOperation(Keys(body)) then Updated else InvalidUpdates
      ensures outcome == InvalidUpdates ==>
        title == old(title) && description == old(description) &&
        components == old(components) && isPublished == old(isPublished)
      ensures outcome == Updated ==>
        title == Assigned(body, "title", old(title)) &&
        description == Assigned(body, "description", old(description)) &&
        components == Assigned(body, "components", old(components)) &&
        isPublished == Assigned(body, "isPublished", old(isPublished))
      ensures owner == old(owner) && publishedUrl == old(publishedUrl)
      ensures createdAt == old(createdAt) && updatedAt == old(updatedAt)
    {
      var updates := Keys(body);
      if !IsValidOperation(updates) {
        return InvalidUpdates;
      }
      FieldNamesDistinct();
      var i := 0;
      while i < |updates|
        invariant 0 <= i <= |updates|
        invariant title == if "title" in updates[..i] then Get(body, "title").value else old(title)
        invariant description ==
          if "description" in updates[..i] then Get(body, "description").value else old(description)
        invariant components ==
          if "components" in updates[..i] then Get(body, "components").value else old(components)
        invariant isPublished ==
          if "isPublished" in updates[..i] then Get(body, "isPublished").value else old(isPublished)
      {
        var update := updates[i];
        PrefixStep(updates, i);
        SetField(update, Get(body, update).value);
        i := i + 1;
      }
      assert updates[..i] == updates;
      return Updated;
    }
  }

  lemma FieldNamesDistinct()
    ensures "title" != "description" && "title" != "components" && "title" != "isPublished"
    ensures "description" != "components" && "description" != "isPublished" && "components" != "isPublished"
  {
    assert "description"[0] != "isPublished"[0];
  }

  lemma PrefixStep(s: seq<string>, i: nat)
    requires i < |s|
    ensures forall x :: x in s[..i + 1] <==> x in s[..i] || x == s[i]
  {
    assert s[..i + 1] == s[..i] + [s[i]];
  }

  // ---------------------------------------------------------------------------
  // The export file name

  /** The characters the regular expression class `\s` matches. */
  const Whitespace: set<char> := {
    '\t', '\n', '\U{000B}', '\U{000C}', '\r', ' ', '\U{00A0}', '\U{1680}',
    '\U{2000}', '\U{2001}', '\U{2002}', '\U{2003}', '\U{2004}', '\U{2005}', '\U{2006}', '\U{2007}',
    '\U{2008}', '\U{2009}', '\U{200A}', '\U{2028}', '\U{2029}', '\U{202F}', '\U{205F}', '\U{3000}',
    '\U{FEFF}'
  }

  /** Letters, digits and punctuation are not whitespace. */
  lemma PrintableIsNotWhitespace(c: char)
    requires '!' <= c <= '~'
    ensures c !in Whitespace
  {
  }

  /** No character of s is in ws. */
  predicate NoneIn(s: string, ws: set<char>) {
    forall i :: 0 <= i < |s| ==> s[i] !in ws
  }

  function LowerChar(c: char): char {
    if 'A' <= c <= 'Z' then (c as int + 32) as char else c
  }

  /** `s.toLowerCase()` on the letters A to Z. */
  function ToLowerCase(s: string): (r: string)
    ensures |r| == |s|
    ensures forall i :: 0 <= i < |s| ==> r[i] == LowerChar(s[i])
    ensures forall i :: 0 <= i < |s| ==> !('A' <= r[i] <= 'Z')
    ensures forall i :: 0 <= i < |s| ==> (r[i] in Whitespace <==> s[i] in Whitespace)
  {
    forall i | 0 <= i < |s| && 'A' <= s[i] <= 'Z' ensures s[i] !in Whitespace && LowerChar(s[i]) !in Whitespace {
      PrintableIsNotWhitespace(s[i]);
      PrintableIsNotWhitespace(LowerChar(s[i]));
    }
    seq(|s|, i requires 0 <= i < |s| => LowerChar(s[i]))
  }

  /** The rest of s after its leading run of characters from ws. */
  function SkipRun(s: string, ws: set<char>): (r: string)
    ensures |r| <= |s|
    ensures r == [] || r[0] !in ws
  {
    if s != [] && s[0] in ws then SkipRun(s[1..], ws) else s
  }

  /** A run never reaches a last character outside ws. */
  lemma {:induction false} SkipRunKeepsLast(s: string, ws: set<char>)
    requires s != [] && s[|s| - 1] !in ws
    ensures SkipRun(s, ws) != [] && SkipRun(s, ws)[|SkipRun(s, ws)| - 1] == s[|s| - 1]
  {
    if s[0] in ws {
      assert |s| > 1;
      assert s[1..][|s| - 2] == s[|s| - 1];
      SkipRunKeepsLast(s[1..], ws);
    }
  }

  /**
   * `s.replace(/\s+/g, '-')` with ws for the characters `\s` matches: every
   * maximal run of characters from ws becomes one `-`.
   */
  function CollapseRuns(s: string, ws: set<char>): (r: string)
    ensures |r| <= |s|
    ensures r == [] <==> s == []
    decreases |s|
  {
    if s == [] then []
    else if s[0] in ws then "-" + CollapseRuns(SkipRun(s[1..], ws), ws)
    else [s[0]] + CollapseRuns(s[1..], ws)
  }

  lemma {:induction false} CollapsedHasNone(s: string, ws: set<char>)
    requires '-' !in ws
    ensures NoneIn(CollapseRuns(s, ws), ws)
    decreases |s|
  {
    if s != [] {
      if s[0] in ws {
        CollapsedHasNone(SkipRun(s[1..], ws), ws);
      } else {
        CollapsedHasNone(s[1..], ws);
      }
    }
  }

  lemma {:induction false} CollapseKeepsRunFree(s: string, ws: set<char>)
    requires NoneIn(s, ws)
    ensures CollapseRuns(s, ws) == s
  {
    if s != [] {
      CollapseKeepsRunFree(s[1..], ws);
    }
  }

  /**
   * A run between two pieces that do not touch it with run characters of
   * their own becomes a single `-`.
   */
  lemma {:induction false} CollapseRun(a: string, w: string, b: string, ws: set<char>)
    requires a == [] || a[|a| - 1] !in ws
    requires w != [] && forall i :: 0 <= i < |w| ==> w[i] in ws
    requires b == [] || b[0] !in ws
    ensures CollapseRuns(a + w + b, ws) == CollapseRuns(a, ws) + "-" + CollapseRuns(b, ws)
    decreases |a|
  {
    if a == [] {
      var s := a + w + b;
      assert s == w + b;
      assert s[1..] == w[1..] + b;
      SkipWholeRun(w[1..], b, ws);
    } else if a[0] in ws {
      // a ends outside ws, so its leading run stops inside it
      var rest := SkipRun(a[1..], ws);
      assert |a| > 1;
      assert a[1..][|a| - 2] == a[|a| - 1];
      SkipRunKeepsLast(a[1..], ws);
      CollapseLeadingRun(a, w + b, ws);
      AppendAssoc(a, w, b);
      AppendAssoc(rest, w, b);
      CollapseRun(rest, w, b, ws);
      AppendAssoc4("-", CollapseRuns(rest, ws), "-", CollapseRuns(b, ws));
    } else {
      var s := a + w + b;
      var rest := a[1..];
      assert s[0] == a[0];
      assert s[1..] == rest + w + b;
      CollapseRun(rest, w, b, ws);
      AppendAssoc4([a[0]], CollapseRuns(rest, ws), "-", CollapseRuns(b, ws));
    }
  }

  lemma CollapseLeadingRun(a: string, t: string, ws: set<char>)
    requires a != [] && a[0] in ws && SkipRun(a[1..], ws) != []
    ensures CollapseRuns(a + t, ws) == "-" + CollapseRuns(SkipRun(a[1..], ws) + t, ws)
    ensures CollapseRuns(a, ws) == "-" + CollapseRuns(SkipRun(a[1..], ws), ws)
  {
    var s := a + t;
    assert s[0] == a[0] && s[1..] == a[1..] + t;
    CollapseAtRun(s, ws);
    CollapseAtRun(a, ws);
    SkipRunPrefix(a[1..], t, ws);
  }

  lemma CollapseAtRun(s: string, ws: set<char>)
    requires s != [] && s[0] in ws
    ensures CollapseRuns(s, ws) == "-" + CollapseRuns(SkipRun(s[1..], ws), ws)
  {
  }

  lemma AppendAssoc(x: string, y: string, z: string)
    ensures x + (y + z) == x + y + z
  {
  }

  lemma AppendAssoc4(p: string, x: string, q: string, y: string)
    ensures p + (x + q + y) == p + x + q + y
  {
  }

  lemma {:induction false} SkipWholeRun(w: string, b: string, ws: set<char>)
    requires forall i :: 0 <= i < |w| ==> w[i] in ws
    requires b == [] || b[0] !in ws
    ensures SkipRun(w + b, ws) == b
  {
    if w != [] {
      assert (w + b)[1..] == w[1..] + b;
      SkipWholeRun(w[1..], b, ws);
    }
  }

  lemma {:induction false} SkipRunPrefix(x: string, y: string, ws: set<char>)
    requires SkipRun(x, ws) != []
    ensures SkipRun(x + y, ws) == SkipRun(x, ws) + y
  {
    if x[0] in ws {
      assert (x + y)[1..] == x[1..] + y;
      SkipRunPrefix(x[1..], y, ws);
    }
  }

  lemma NoneInAppend(x: string, y: string, ws: set<char>)
    requires NoneIn(x, ws) && NoneIn(y, ws)
    ensures NoneIn(x + y, ws)
  {
    forall i | 0 <= i < |x + y| ensures (x + y)[i] !in ws {
      if i < |x| { assert (x + y)[i] == x[i]; } else { assert (x + y)[i] == y[i - |x|]; }
    }
  }

  /** `${title.toLowerCase().replace(/\s+/g, '-')}-${now}.html`, now standing for `Date.now()`. */
  function ExportFileName(title: string, now: nat): (r: string)
    ensures NoneIn(r, Whitespace)
    ensures r == CollapseRuns(ToLowerCase(title), Whitespace) + "-" + NatToString(now) + ".html"
  {
    var slug := CollapseRuns(ToLowerCase(title), Whitespace);
    var digits := NatToString(now);
    PrintableIsNotWhitespace('-');
    CollapsedHasNone(ToLowerCase(title), Whitespace);
    forall i | 0 <= i < |digits| ensures digits[i] !in Whitespace {
      PrintableIsNotWhitespace(digits[i]);
    }
    forall i | 0 <= i < 5 ensures ".html"[i] !in Whitespace {
      PrintableIsNotWhitespace(".html"[i]);
    }
    NoneInAppend(slug, "-", Whitespace);
    NoneInAppend(slug + "-", digits, Whitespace);
    NoneInAppend(slug + "-" + digits, ".html", Whitespace);
    slug + "-" + digits + ".html"
  }

  /** A title with no whitespace keeps its characters, lower-cased, in the file name. */
  lemma FileNameOfOneWord(title: string, now: nat)
    requires NoneIn(title, Whitespace)
    ensures ExportFileName(title, now) == ToLowerCase(title) + "-" + NatToString(now) + ".html"
  {
    CollapseKeepsRunFree(ToLowerCase(title), Whitespace);
  }

  // ---------------------------------------------------------------------------
  // The export compiler

  /** `${component.id}` */
  function ComponentId(c: Object): string {
    Interpolate(Get(c, "id"))
  }

  function ClassAttribute(c: Object): string {
    "class=\"component-" + ComponentId(c) + "\""
  }

  /** `${v || fallback}` */
  function ValueOr(v: Option<Value>, fallback: string): (r: string)
    ensures !Truthy(v) ==> r == fallback
    ensures Truthy(v) ==> r == Render(v.value)
  {
    Interpolate(Some(Or(v, Str(fallback))))
  }

  /** `${component[key] || fallback}` */
  function FieldOr(c: Object, key: string, fallback: string): (r: string)
    ensures !Truthy(Get(c, key)) ==> r == fallback
    ensures Truthy(Get(c, key)) ==> r == Render(Get(c, key).value)
  {
    ValueOr(Get(c, key), fallback)
  }

  /** The component's type is the string t. */
  predicate HasType(c: Object, t: string) {
    Get(c, "type") == Some(Str(t))
  }

  /** HasType is the test `component.type === t` each case of the switch makes. */
  lemma HasTypeIsStrictEquality(c: Object, t: string)
    ensures HasType(c, t) <==> StrictEquals(Get(c, "type"), Some(Str(t)))
  {
  }

  lemma TypeNamesDistinct()
    ensures "text" != "image" && "text" != "button" && "text" != "input"
    ensures "image" != "button" && "image" != "input" && "button" != "input"
  {
    assert "image"[1] != "input"[1];
  }

  predicate HasMarkup(c: Object) {
    HasType(c, "text") || HasType(c, "image") || HasType(c, "button") || HasType(c, "input")
  }

  /**
   * `generateComponentHtml(component)`: an element for the four exported
   * types, each carrying the component's class, and nothing for any other.
   */
  function GenerateComponentHtml(c: Object): (r: string)
    ensures r == "" <==> !HasMarkup(c)
    ensures r != "" ==> Occurs(ClassAttribute(c), r)
    ensures HasType(c, "text") ==>
      r == Concat(["<p ", ClassAttribute(c), ">", FieldOr(c, "content", ""), "</p>"])
    ensures HasType(c, "image") ==>
      r == Concat(["<img ", ClassAttribute(c), " src=\"", FieldOr(c, "src", ""),
                   "\" alt=\"", FieldOr(c, "alt", ""), "\" />"])
    ensures HasType(c, "button") ==>
      r == Concat(["<button ", ClassAttribute(c), ">", FieldOr(c, "content", ""), "</button>"])
    ensures HasType(c, "input") ==>
      r == Concat(["<input ", ClassAttribute(c), " type=\"", FieldOr(c, "inputType", "text"),
                   "\" placeholder=\"", FieldOr(c, "placeholder", ""), "\" />"])
  {
    var commonProps := ClassAttribute(c);
    TypeNamesDistinct();
    if HasType(c, "text") then
      var content := FieldOr(c, "content", "");
      OccursInConcat5("<p ", commonProps, ">", content, "</p>");
      Concat(["<p ", commonProps, ">", content, "</p>"])
    else if HasType(c, "image") then
      var src, alt := FieldOr(c, "src", ""), FieldOr(c, "alt", "");
      OccursInConcat7("<img ", commonProps, " src=\"", src, "\" alt=\"", alt, "\" />");
      Concat(["<img ", commonProps, " src=\"", src, "\" alt=\"", alt, "\" />"])
    else if HasType(c, "button") then
      var content := FieldOr(c, "content", "");
      OccursInConcat5("<button ", commonProps, ">", content, "</button>");
      Concat(["<button ", commonProps, ">", content, "</button>"])
    else if HasType(c, "input") then
      var inputType, placeholder := FieldOr(c, "inputType", "text"), FieldOr(c, "placeholder", "");
      OccursInConcat7("<input ", commonProps, " type=\"", inputType, "\" placeholder=\"", placeholder, "\" />");
      Concat(["<input ", commonProps, " type=\"", inputType, "\" placeholder=\"", placeholder, "\" />"])
    else
      ""
  }


  /** `${key}: ${value}` for one style entry. */
  function Declaration(entry: (string, Value)): string {
    entry.0 + ": " + Render(entry.1)
  }

  function DeclarationList(entries: Object): (parts: seq<string>)
    ensures |parts| == |entries| && forall i :: 0 <= i < |entries| ==> parts[i] == Declaration(entries[i])
  {
    seq(|entries|, i requires 0 <= i < |entries| => Declaration(entries[i]))
  }

  /**
   * `entries.map(([key, value]) => `${key}: ${value}`).join('; ')`: no
   * entries give no text, one entry gives its declaration, and every entry's
   * declaration occurs (EntryDeclarationsAppend fixes their order).
   */
  function EntryDeclarations(entries: Object): (r: string)
    ensures entries == [] ==> r == ""
    ensures |entries| == 1 ==> r == Declaration(entries[0])
    ensures forall i :: 0 <= i < |entries| ==> Occurs(Declaration(entries[i]), r)
  {
    var parts := DeclarationList(entries);
    forall i | 0 <= i < |entries| ensures Occurs(Declaration(entries[i]), Join(parts, "; ")) {
      OccursInJoin(parts, "; ", i);
    }
    Join(parts, "; ")
  }

  /** The entries of a style render in order, separated by `; `. */
  lemma EntryDeclarationsAppend(e1: Object, e2: Object)
    requires e1 != [] && e2 != []
    ensures EntryDeclarations(e1 + e2) == EntryDeclarations(e1) + "; " + EntryDeclarations(e2)
  {
    assert DeclarationList(e1 + e2) == DeclarationList(e1) + DeclarationList(e2);
    JoinAppend(DeclarationList(e1), DeclarationList(e2), "; ");
  }

  /** `Object.entries(component.style || {}).map(([key, value]) => `${key}: ${value}`).join('; ')` */
  function Declarations(c: Object): (r: string)
    ensures !Truthy(Get(c, "style")) ==> r == ""
    ensures Get(c, "style").Some? && Get(c, "style").value.Obj? ==>
      r == EntryDeclarations(Get(c, "style").value.entries)
  {
    EntryDeclarations(OwnEntries(Some(Or(Get(c, "style"), Obj([])))))
  }

  /** `component.animation && component.animation.type !== 'none'` */
  predicate Animated(c: Object) {
    Truthy(Get(c, "animation")) && !StrictEquals(Prop(Get(c, "animation").value, "type"), Some(Str("none")))
  }

  /**
   * The animation shorthand: the type, then the duration unless it is unset
   * or falsy, when `1s` stands in, then the timing, with `ease` standing in
   * the same way; each fallback applies on its own.
   */
  function AnimationDeclaration(c: Object): (r: string)
    requires Animated(c)
    ensures var a := Get(c, "animation").value;
      r == Concat(["animation: ", Interpolate(Prop(a, "type")), " ",
                   if Truthy(Prop(a, "duration")) then Render(Prop(a, "duration").value) else "1s", " ",
                   if Truthy(Prop(a, "timing")) then Render(Prop(a, "timing").value) else "ease", ";"])
  {
    var a := Get(c, "animation").value;
    Concat(["animation: ", Interpolate(Prop(a, "type")), " ", ValueOr(Prop(a, "duration"), "1s"), " ",
            ValueOr(Prop(a, "timing"), "ease"), ";"])
  }

  /**
   * What the settings panel produces: an animation type other than `none`
   * and a positive duration in milliseconds, but no timing, which therefore
   * falls back to `ease`.
   */
  lemma PanelAnimationDeclaration(id: nat, animationType: string, ms: nat)
    requires animationType != "none" && ms > 0
    ensures var c: Object := [("id", Num(id)),
                              ("animation", Obj([("type", Str(animationType)), ("duration", Num(ms))]))];
      Animated(c) &&
      AnimationDeclaration(c) == Concat(["animation: ", animationType, " ", NatToString(ms), " ", "ease", ";"])
  {
    var a: Object := [("type", Str(animationType)), ("duration", Num(ms))];
    var c: Object := [("id", Num(id)), ("animation", Obj(a))];
    assert Get(c[1..], "animation") == Some(Obj(a));
    assert Get(a, "type") == Some(Str(animationType));
    assert Get(a[1..], "duration") == Some(Num(ms));
    assert "timing" !in Keys(a);
  }

  function RuleOpen(c: Object): string {
    ".component-" + ComponentId(c) + " {"
  }

  /**
   * The rule block of one component: its class selector, its declarations
   * and, exactly when it is animated, the animation shorthand on the line
   * after them.
   */
  function GenerateStyle(c: Object): (r: string)
    ensures Occurs(RuleOpen(c), r) && Occurs(Declarations(c), r)
    ensures Animated(c) ==> Occurs(AnimationDeclaration(c), r)
    ensures Animated(c) ==>
      r == Concat(["\n        ", RuleOpen(c), "\n          ", Declarations(c),
                   "\n          ", AnimationDeclaration(c), "\n        }"])
    ensures !Animated(c) ==>
      r == Concat(["\n      ", RuleOpen(c), "\n        ", Declarations(c), "\n      }"])
  {
    if Animated(c) then
      OccursInConcat7("\n        ", RuleOpen(c), "\n          ", Declarations(c),
                      "\n          ", AnimationDeclaration(c), "\n        }");
      Concat(["\n        ", RuleOpen(c), "\n          ", Declarations(c),
              "\n          ", AnimationDeclaration(c), "\n        }"])
    else
      OccursInConcat5("\n      ", RuleOpen(c), "\n        ", Declarations(c), "\n      }");
      Concat(["\n      ", RuleOpen(c), "\n        ", Declarations(c), "\n      }"])
  }


  function Styles(cs: seq<Object>): (parts: seq<string>)
    ensures |parts| == |cs| && forall i :: 0 <= i < |cs| ==> parts[i] == GenerateStyle(cs[i])
  {
    seq(|cs|, i requires 0 <= i < |cs| => GenerateStyle(cs[i]))
  }

  /** `generateStyles(components)`: one rule block per component, in order, joined by newlines. */
  function GenerateStyles(cs: seq<Object>): (r: string)
    ensures cs == [] ==> r == ""
    ensures |cs| == 1 ==> r == GenerateStyle(cs[0])
    ensures forall i :: 0 <= i < |cs| ==> Occurs(GenerateStyle(cs[i]), r)
  {
    var parts := Styles(cs);
    forall i | 0 <= i < |cs| ensures Occurs(GenerateStyle(cs[i]), Join(parts, "\n")) {
      OccursInJoin(parts, "\n", i);
    }
    Join(parts, "\n")
  }

  lemma GenerateStylesAppend(a: seq<Object>, b: seq<Object>)
    requires a != [] && b != []
    ensures GenerateStyles(a + b) == GenerateStyles(a) + "\n" + GenerateStyles(b)
  {
    assert Styles(a + b) == Styles(a) + Styles(b);
    JoinAppend(Styles(a), Styles(b), "\n");
  }

  /** `component.action?.type === 'scroll'` */
  predicate IsScroll(c: Object) {
    StrictEquals(OptionalProp(Get(c, "action"), "type"), Some(Str("scroll")))
  }

  /** `${component.action.targetId}` */
  function TargetId(c: Object): string {
    Interpolate(OptionalProp(Get(c, "action"), "targetId"))
  }

  function ClickListener(c: Object): string {
    "document.getElementById('" + ComponentId(c) + "').addEventListener('click', () => {"
  }

  function ScrollCall(c: Object): string {
    "document.getElementById('" + TargetId(c) + "').scrollIntoView({ behavior: 'smooth' });"
  }

  /**
   * The script piece of one component: a click handler on the element named
   * by its id that scrolls to the element named by its action's target id,
   * and nothing unless the action type is exactly `scroll`.
   */
  function GenerateScript(c: Object): (r: string)
    ensures r != "" <==> IsScroll(c)
    ensures IsScroll(c) ==> Occurs(ClickListener(c), r) && Occurs(ScrollCall(c), r)
  {
    if IsScroll(c) then
      OccursInConcat5("\n        ", ClickListener(c), "\n          ", ScrollCall(c), "\n        });");
      Concat(["\n        ", ClickListener(c), "\n          ", ScrollCall(c), "\n        });"])
    else
      ""
  }


  function Scripts(cs: seq<Object>): (parts: seq<string>)
    ensures |parts| == |cs| && forall i :: 0 <= i < |cs| ==> parts[i] == GenerateScript(cs[i])
  {
    seq(|cs|, i requires 0 <= i < |cs| => GenerateScript(cs[i]))
  }

  /** `generateScripts(components)`: one piece per component, empty ones included, joined by newlines. */
  function GenerateScripts(cs: seq<Object>): (r: string)
    ensures cs == [] ==> r == ""
    ensures |cs| == 1 ==> r == GenerateScript(cs[0])
    ensures forall i :: 0 <= i < |cs| ==> Occurs(GenerateScript(cs[i]), r)
  {
    var parts := Scripts(cs);
    forall i | 0 <= i < |cs| ensures Occurs(GenerateScript(cs[i]), Join(parts, "\n")) {
      OccursInJoin(parts, "\n", i);
    }
    Join(parts, "\n")
  }

  lemma GenerateScriptsAppend(a: seq<Object>, b: seq<Object>)
    requires a != [] && b != []
    ensures GenerateScripts(a + b) == GenerateScripts(a) + "\n" + GenerateScripts(b)
  {
    assert Scripts(a + b) == Scripts(a) + Scripts(b);
    JoinAppend(Scripts(a), Scripts(b), "\n");
  }

  function Markups(cs: seq<Object>): (parts: seq<string>)
    ensures |parts| == |cs| && forall i :: 0 <= i < |cs| ==> parts[i] == GenerateComponentHtml(cs[i])
  {
    seq(|cs|, i requires 0 <= i < |cs| => GenerateComponentHtml(cs[i]))
  }

  /** `components.map(component => generateComponentHtml(component)).join('\n')` */
  function ComponentMarkup(cs: seq<Object>): (r: string)
    ensures cs == [] ==> r == ""
    ensures |cs| == 1 ==> r == GenerateComponentHtml(cs[0])
    ensures forall i :: 0 <= i < |cs| ==> Occurs(GenerateComponentHtml(cs[i]), r)
  {
    var parts := Markups(cs);
    forall i | 0 <= i < |cs| ensures Occurs(GenerateComponentHtml(cs[i]), Join(parts, "\n")) {
      OccursInJoin(parts, "\n", i);
    }
    Join(parts, "\n")
  }

  lemma ComponentMarkupAppend(a: seq<Object>, b: seq<Object>)
    requires a != [] && b != []
    ensures ComponentMarkup(a + b) == ComponentMarkup(a) + "\n" + ComponentMarkup(b)
  {
    assert Markups(a + b) == Markups(a) + Markups(b);
    JoinAppend(Markups(a), Markups(b), "\n");
  }

  const DocumentHead: string :=
    "\n<!DOCTYPE html>\n<html lang=\"en\">\n<head>\n    <meta charset=\"UTF-8\">\n" +
    "    <meta name=\"viewport\" content=\"width=device-width, initial-scale=1.0\">\n    "
  const StylesheetLink: string :=
    "\n    <link href=\"https://cdn.jsdelivr.net/npm/tailwindcss@2.2.19/dist/tailwind.min.css\" rel=\"stylesheet\">\n    "
  const BodyOpen: string := "\n</head>\n<body class=\"bg-white\">\n    "
  const BodyClose: string := "\n</body>\n</html>"

  function TitleElement(title: string): string {
    "<title>" + title + "</title>"
  }

  function StyleElement(cs: seq<Object>): (r: string)
    ensures Occurs(GenerateStyles(cs), r)
  {
    OccursInConcat3("<style>\n        ", GenerateStyles(cs), "\n    </style>");
    Concat(["<style>\n        ", GenerateStyles(cs), "\n    </style>"])
  }


  function Container(cs: seq<Object>): (r: string)
    ensures Occurs(ComponentMarkup(cs), r)
  {
    OccursInConcat3("<div class=\"container mx-auto px-4 py-8\">\n        ", ComponentMarkup(cs), "\n    </div>");
    Concat(["<div class=\"container mx-auto px-4 py-8\">\n        ", ComponentMarkup(cs), "\n    </div>"])
  }


  function ScriptElement(cs: seq<Object>): (r: string)
    ensures Occurs(GenerateScripts(cs), r)
  {
    OccursInConcat3("<script>\n        ", GenerateScripts(cs), "\n    </script>");
    Concat(["<script>\n        ", GenerateScripts(cs), "\n    </script>"])
  }


  /**
   * `generateHtml(website)`: the document shell with the title verbatim in
   * `<title>`, the rule blocks in `<style>`, the component markup inside
   * the container and the click handlers in `<script>`.
   */
  function GenerateHtml(title: string, cs: seq<Object>): (r: string)
    ensures Occurs(TitleElement(title), r)
    ensures Occurs(StyleElement(cs), r) && Occurs(Container(cs), r) && Occurs(ScriptElement(cs), r)
  {
    OccursInConcat9(DocumentHead, TitleElement(title), StylesheetLink, StyleElement(cs), BodyOpen,
                    Container(cs), "\n    ", ScriptElement(cs), BodyClose);
    Concat([DocumentHead, TitleElement(title), StylesheetLink, StyleElement(cs), BodyOpen,
            Container(cs), "\n    ", ScriptElement(cs), BodyClose])
  }


  /** Every component's markup, rule block and script piece is in the document. */
  lemma ExportContainsEveryComponent(title: string, cs: seq<Object>, i: nat)
    requires i < |cs|
    ensures var r := GenerateHtml(title, cs);
      Occurs(GenerateComponentHtml(cs[i]), r) && Occurs(GenerateStyle(cs[i]), r) && Occurs(GenerateScript(cs[i]), r)
  {
    var r := GenerateHtml(title, cs);
    OccursTrans(GenerateStyles(cs), StyleElement(cs), r);
    OccursTrans(ComponentMarkup(cs), Container(cs), r);
    OccursTrans(GenerateScripts(cs), ScriptElement(cs), r);
    OccursTrans(GenerateComponentHtml(cs[i]), ComponentMarkup(cs), r);
    OccursTrans(GenerateStyle(cs[i]), GenerateStyles(cs), r);
    OccursTrans(GenerateScript(cs[i]), GenerateScripts(cs), r);
  }

  /**
   * A header (or any type outside text, image, button and input) gets a rule
   * block but no markup; without a scroll action it gets no script.
   */
  lemma HeaderIsNotExported(content: string, id: nat)
    ensures var c: Object := [("type", Str("header")), ("content", Str(content)), ("id", Num(id))];
      GenerateComponentHtml(c) == "" && GenerateScript(c) == "" &&
      Occurs(".component-" + NatToString(id) + " {", GenerateStyle(c))
  {
    var c: Object := [("type", Str("header")), ("content", Str(content)), ("id", Num(id))];
    assert Get(c[2..], "id") == Some(Num(id));
    assert Get(c[1..], "id") == Some(Num(id));
    assert Get(c, "type") == Some(Str("header"));
    assert "action" !in Keys(c);
  }

  /** A button with a scroll action to sec1, as the settings panel leaves it. */
  function ScrollButton(id: nat, content: string): Object {
    [("type", Str("button")), ("id", Num(id)), ("content", Str(content)),
     ("action", Obj([("type", Str("scroll")), ("targetId", Str("sec1"))]))]
  }

  /** The scroll button's markup carries its class attribute and no other attribute. */
  lemma ScrollButtonMarkup(id: nat, content: string)
    ensures var c := ScrollButton(id, content);
      ComponentId(c) == NatToString(id) &&
      GenerateComponentHtml(c) == Concat(["<button ", ClassAttribute(c), ">", content, "</button>"])
  {
    var c := ScrollButton(id, content);
    assert Get(c[2..], "content") == Some(Str(content));
    assert Get(c[1..], "content") == Some(Str(content));
    assert Get(c[1..], "id") == Some(Num(id));
    assert HasType(c, "button");
    assert FieldOr(c, "content", "") == content;
  }

  /**
   * The scroll button's handler looks the button up by its bare id, which its
   * markup does not carry, and scrolls to the element with id sec1.
   */
  lemma ScrollButtonScript(id: nat, content: string)
    ensures var c := ScrollButton(id, content);
      IsScroll(c) && TargetId(c) == "sec1" && ComponentId(c) == NatToString(id) &&
      Occurs(ClickListener(c), GenerateScript(c)) && Occurs(ScrollCall(c), GenerateScript(c))
  {
    var c := ScrollButton(id, content);
    var a: Object := [("type", Str("scroll")), ("targetId", Str("sec1"))];
    assert Get(c[3..], "action") == Some(Obj(a));
    assert Get(c[2..], "action") == Some(Obj(a));
    assert Get(c[1..], "action") == Some(Obj(a));
    assert Get(c[1..], "id") == Some(Num(id));
    assert Get(a, "type") == Some(Str("scroll"));
    assert Get(a[1..], "targetId") == Some(Str("sec1"));
  }
}
