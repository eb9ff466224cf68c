/** The TSX generator of the visual editor (gui-edit/src/stores/component-editor.ts):
    attribute escaping, prop formatting, tag names and the nested element text. */
module ComponentCodegen {
  import opened Wrappers
  import opened Strings
  import opened ComponentTree

  // ----- escaping -----

  /** `s.replace(/c/g, rep)`. */
  function ReplaceAll(s: string, c: char, rep: string): string {
    if s == [] then [] else (if s[0] == c then rep else [s[0]]) + ReplaceAll(s[1..], c, rep)
  }

  lemma {:induction false} ReplaceAllAppend(a: string, b: string, c: char, rep: string)
    ensures ReplaceAll(a + b, c, rep) == ReplaceAll(a, c, rep) + ReplaceAll(b, c, rep)
  {
    if a == [] {
      assert a + b == b;
    } else {
      assert (a + b)[0] == a[0];
      assert (a + b)[1..] == a[1..] + b;
      ReplaceAllAppend(a[1..], b, c, rep);
    }
  }

  /** `escapeJSXString`: the five replacements in their order, backslash first. */
  function EscapeJsx(s: string): string {
    ReplaceAll(ReplaceAll(ReplaceAll(ReplaceAll(ReplaceAll(s, '\\', "\\\\"), '"', "\\\""), '\n', "\\n"), '\r', "\\r"), '\t', "\\t")
  }

  /** The escape of one character. */
  function EscapeChar(c: char): (r: string)
    ensures '\n' !in r && r != []
  {
    if c == '\\' then "\\\\"
    else if c == '"' then "\\\""
    else if c == '\n' then "\\n"
    else if c == '\r' then "\\r"
    else if c == '\t' then "\\t"
    else [c]
  }

  /** Escaping character by character, the reference the replacements meet. */
  function EscapeEach(s: string): (r: string)
    ensures '\n' !in r
  {
    if s == [] then [] else EscapeChar(s[0]) + EscapeEach(s[1..])
  }

  lemma EscapeJsxAppend(a: string, b: string)
    ensures EscapeJsx(a + b) == EscapeJsx(a) + EscapeJsx(b)
  {
    var r1a, r1b := ReplaceAll(a, '\\', "\\\\"), ReplaceAll(b, '\\', "\\\\");
    ReplaceAllAppend(a, b, '\\', "\\\\");
    var r2a, r2b := ReplaceAll(r1a, '"', "\\\""), ReplaceAll(r1b, '"', "\\\"");
    ReplaceAllAppend(r1a, r1b, '"', "\\\"");
    var r3a, r3b := ReplaceAll(r2a, '\n', "\\n"), ReplaceAll(r2b, '\n', "\\n");
    ReplaceAllAppend(r2a, r2b, '\n', "\\n");
    var r4a, r4b := ReplaceAll(r3a, '\r', "\\r"), ReplaceAll(r3b, '\r', "\\r");
    ReplaceAllAppend(r3a, r3b, '\r', "\\r");
    ReplaceAllAppend(r4a, r4b, '\t', "\\t");
  }

  /** A replacement that does not apply to any character of `s`. */
  lemma {:induction false} ReplaceAllAbsent(s: string, c: char, rep: string)
    requires c !in s
    ensures ReplaceAll(s, c, rep) == s
  {
    if s != [] {
      assert c !in s[1..] by {
        forall i | 0 <= i < |s[1..]| ensures s[1..][i] != c {
          assert s[1..][i] == s[i + 1];
        }
      }
      ReplaceAllAbsent(s[1..], c, rep);
      assert s == [s[0]] + s[1..];
    }
  }

  lemma ReplaceAllOne(c: char, x: char, rep: string)
    ensures ReplaceAll([c], x, rep) == if c == x then rep else [c]
  {
    assert [c][1..] == [];
  }

  /** The replacements after the one that applies leave its text alone. */
  lemma EscapeJsxChar(c: char)
    ensures EscapeJsx([c]) == EscapeChar(c)
  {
    ReplaceAllOne(c, '\\', "\\\\");
    if c == '\\' {
      ReplaceAllAbsent("\\\\", '"', "\\\"");
      ReplaceAllAbsent("\\\\", '\n', "\\n");
      ReplaceAllAbsent("\\\\", '\r', "\\r");
      ReplaceAllAbsent("\\\\", '\t', "\\t");
    } else {
      ReplaceAllOne(c, '"', "\\\"");
      if c == '"' {
        ReplaceAllAbsent("\\\"", '\n', "\\n");
        ReplaceAllAbsent("\\\"", '\r', "\\r");
        ReplaceAllAbsent("\\\"", '\t', "\\t");
      } else {
        EscapeJsxCharRest(c);
      }
    }
  }

  lemma EscapeJsxCharRest(c: char)
    requires c != '\\' && c != '"'
    ensures ReplaceAll(ReplaceAll(ReplaceAll([c], '\n', "\\n"), '\r', "\\r"), '\t', "\\t") == EscapeChar(c)
  {
    ReplaceAllOne(c, '\n', "\\n");
    if c == '\n' {
      ReplaceAllAbsent("\\n", '\r', "\\r");
      ReplaceAllAbsent("\\n", '\t', "\\t");
    } else {
      ReplaceAllOne(c, '\r', "\\r");
      if c == '\r' {
        ReplaceAllAbsent("\\r", '\t', "\\t");
      } else {
        ReplaceAllOne(c, '\t', "\\t");
      }
    }
  }

  /** The chained replacements escape each character on its own: the
      backslashes the later replacements add are never escaped again. */
  lemma {:induction false} EscapeJsxEach(s: string)
    ensures EscapeJsx(s) == EscapeEach(s)
  {
    if s != [] {
      assert s == [s[0]] + s[1..];
      EscapeJsxAppend([s[0]], s[1..]);
      EscapeJsxChar(s[0]);
      EscapeJsxEach(s[1..]);
    }
  }

  /** Reading an escaped attribute back. */
  function Unescape(s: string): string {
    if s == [] then []
    else if s[0] == '\\' && |s| >= 2 then
      var c := s[1];
      [if c == 'n' then '\n' else if c == 'r' then '\r' else if c == 't' then '\t' else c] + Unescape(s[2..])
    else [s[0]] + Unescape(s[1..])
  }

  lemma UnescapeChar(c: char, rest: string)
    ensures Unescape(EscapeChar(c) + rest) == [c] + Unescape(rest)
  {
    var e := EscapeChar(c) + rest;
    if |EscapeChar(c)| == 2 {
      assert e[2..] == rest;
    } else {
      assert e[1..] == rest;
    }
  }

  /** Escaping loses nothing: the escaped text reads back as the original. */
  lemma {:induction false} EscapeRoundTrip(s: string)
    ensures Unescape(EscapeJsx(s)) == s
    ensures '\n' !in EscapeJsx(s)
  {
    EscapeJsxEach(s);
    EscapeEachRoundTrip(s);
  }

  lemma {:induction false} EscapeEachRoundTrip(s: string)
    ensures Unescape(EscapeEach(s)) == s
  {
    if s != [] {
      UnescapeChar(s[0], EscapeEach(s[1..]));
      EscapeEachRoundTrip(s[1..]);
      assert s == [s[0]] + s[1..];
    }
  }

  // ----- props -----

  /** The values `formatPropValue` drops: undefined, null, the empty string and
      false. */
  predicate Omitted(v: PropValue) {
    v.Undefined? || v.Null? || v == Str("") || v == Bool(false)
  }

  /** `formatPropValue`: a bare key for true, `key="…"` with the escaped text for
      a string, `key={…}` for a number or any other value. */
  function FormatPropValue(key: string, v: PropValue): (r: Option<string>)
    ensures r.None? <==> Omitted(v)
    ensures r.Some? ==> StartsWith(r.value, key)
    ensures v == Bool(true) ==> r == Some(key)
    ensures v.Str? && v.s != "" ==> r == Some(key + "=\"" + EscapeJsx(v.s) + "\"")
  {
    match v
    case Undefined => None
    case Null => None
    case Str(s) => if s == "" then None else Some(key + "=\"" + EscapeJsx(s) + "\"")
    case Bool(b) => if b then Some(key) else None
    case Num(n) => Some(key + "={" + IntToString(n) + "}")
    case Json(t) => Some(key + "={" + t + "}")
  }

  /** The attributes of a node: every entry but `children`, formatted, the
      dropped ones left out. */
  function Attributes(props: seq<Prop>): seq<string> {
    if props == [] then []
    else
      var p := props[0];
      var f := if p.key == "children" then None else FormatPropValue(p.key, p.value);
      (if f.Some? then [f.value] else []) + Attributes(props[1..])
  }

  lemma {:induction false} AttributesAppend(a: seq<Prop>, b: seq<Prop>)
    ensures Attributes(a + b) == Attributes(a) + Attributes(b)
  {
    if a == [] {
      assert a + b == b;
    } else {
      assert (a + b)[0] == a[0];
      assert (a + b)[1..] == a[1..] + b;
      AttributesAppend(a[1..], b);
    }
  }

  lemma {:induction false} AttributesOverwriteChildren(props: seq<Prop>, v: PropValue)
    ensures Attributes(Overwritten(props, [Prop("children", v)])) == Attributes(props)
  {
    if props != [] {
      AttributesOverwriteChildren(props[1..], v);
      var o := Overwritten(props, [Prop("children", v)]);
      assert o[1..] == Overwritten(props[1..], [Prop("children", v)]);
      assert props[0].key != "children" ==> o[0] == props[0];
    }
  }

  /** The `children` prop never shows up as an attribute: setting it leaves the
      attributes as they were. */
  lemma AttributesIgnoreChildren(props: seq<Prop>, v: PropValue)
    ensures Attributes(Merge(props, [Prop("children", v)])) == Attributes(props)
  {
    var ch := [Prop("children", v)];
    AttributesAppend(Overwritten(props, ch), Fresh(ch, props));
    AttributesOverwriteChildren(props, v);
    var f := Fresh(ch, props);
    assert Fresh(ch[1..], props) == [];
    assert f == [] || f == ch;
    assert Attributes(ch) == [] by {
      assert ch[1..] == [];
    }
  }

  // ----- tags and elements -----

  /** `getTagName`. */
  function TagName(componentId: string): (r: string)
    ensures r != [] && '/' !in r && '\n' !in r
    ensures componentId !in {"div", "flex", "grid", "card", "button", "input", "textarea", "text", "heading", "image", "badge", "separator"} ==> r == "div"
  {
    if componentId in {"div", "flex", "grid", "card"} then "div"
    else if componentId == "button" then "Button"
    else if componentId == "input" then "Input"
    else if componentId == "textarea" then "Textarea"
    else if componentId == "text" then "p"
    else if componentId == "heading" then "h2"
    else if componentId == "image" then "img"
    else if componentId == "badge" then "Badge"
    else if componentId == "separator" then "Separator"
    else "div"
  }

  /** JavaScript truthiness of a prop value. */
  predicate Truthy(v: PropValue) {
    match v
    case Undefined => false
    case Null => false
    case Str(t) => t != ""
    case Bool(b) => b
    case Num(n) => n != 0
    case Json(_) => true
  }

  /** The node has text: its `children` prop is truthy. */
  predicate HasText(props: seq<Prop>) {
    var v := Get(props, "children");
    v.Some? && Truthy(v.value)
  }

  /** A text `escapeJSXString` can take: the `children` prop, when truthy, is a
      string (any other truthy value makes `.replace` throw). */
  predicate TextIsString(props: seq<Prop>) {
    HasText(props) ==> Get(props, "children").value.Str?
  }

  /** Every node can be generated: it has nested children or a usable text. */
  predicate Generable(comps: seq<Dropped>)
    decreases comps, 1
  {
    comps == [] || (ElementGenerable(comps[0]) && Generable(comps[1..]))
  }

  predicate ElementGenerable(c: Dropped)
    decreases c, 0
  {
    (c.children != [] || TextIsString(c.props)) && Generable(c.children)
  }

  function Spaces(indent: nat): (r: string)
    ensures |r| == 2 * indent && forall i :: 0 <= i < |r| ==> r[i] == ' '
  {
    seq(2 * indent, _ => ' ')
  }

  /** The opening text of an element: indentation, tag and attributes. */
  function OpenTag(c: Dropped, indent: nat): string {
    var attrs := Join(Attributes(c.props), " ");
    Spaces(indent) + "<" + TagName(c.componentId) + (if attrs != "" then " " + attrs else "")
  }

  /** One element of `generateTSXCode`. */
  function Element(c: Dropped, indent: nat): string
    requires ElementGenerable(c)
    decreases c, 3
  {
    OpenTag(c, indent) + AfterOpen(c, indent)
  }

  /** What follows the opening tag: ` />`, or `>`, the content and the closing
      tag. */
  function AfterOpen(c: Dropped, indent: nat): string
    requires ElementGenerable(c)
    decreases c, 2
  {
    var tag := TagName(c.componentId);
    if c.children == [] && !HasText(c.props) then " />"
    else
      var content := if c.children != [] then "\n" + Generate(c.children, indent + 1) + "\n" + Spaces(indent)
                     else EscapeJsx(Get(c.props, "children").value.s);
      ">" + content + "</" + tag + ">"
  }

  function Elements(comps: seq<Dropped>, indent: nat): (r: seq<string>)
    requires Generable(comps)
    decreases comps, 0
    ensures |r| == |comps|
  {
    if comps == [] then [] else [Element(comps[0], indent)] + Elements(comps[1..], indent)
  }

  /** `generateTSXCode(components, indent)`: the elements joined by newlines. */
  function Generate(comps: seq<Dropped>, indent: nat): string
    requires Generable(comps)
    decreases comps, 1
  {
    Join(Elements(comps, indent), "\n")
  }

  /** A text whose next-to-last character is not `/` does not end in `/>`. */
  lemma NotSelfClosed(o: string, a: string)
    requires |a| >= 2 && a[|a| - 2] != '/'
    ensures !EndsWith(o + a, "/>")
  {
    var e := o + a;
    assert e[|e| - 2] == a[|a| - 2];
    assert e[|e| - 2..][0] == e[|e| - 2];
  }

  /** An element closes itself exactly when it has neither nested children nor
      text. */
  lemma SelfClosing(c: Dropped, indent: nat)
    requires ElementGenerable(c)
    ensures EndsWith(Element(c, indent), "/>") <==> c.children == [] && !HasText(c.props)
  {
    var o := OpenTag(c, indent);
    var a := AfterOpen(c, indent);
    if c.children == [] && !HasText(c.props) {
      assert (o + " />")[|o| + 1..] == "/>";
    } else {
      var tag := TagName(c.componentId);
      assert a[|a| - 2] == tag[|tag| - 1];
      assert tag[|tag| - 1] in tag;
      NotSelfClosed(o, a);
    }
  }

  // ----- indentation -----

  /** Every line after a newline starts with the indentation of level `n`. */
  ghost predicate LinesIndented(s: string, n: nat) {
    forall i :: 0 <= i < |s| - 1 && s[i] == '\n' ==> StartsWith(s[i + 1..], Spaces(n))
  }

  /** The text and each of its later lines start with the indentation. */
  ghost predicate Indented(s: string, n: nat) {
    StartsWith(s, Spaces(n)) && LinesIndented(s, n)
  }

  /** Keys and serialised values without line breaks. */
  predicate PlainProps(props: seq<Prop>) {
    forall i :: 0 <= i < |props| ==> '\n' !in props[i].key && (props[i].value.Json? ==> '\n' !in props[i].value.text)
  }

  predicate Plain(comps: seq<Dropped>)
    decreases comps, 1
  {
    comps == [] || (PlainNode(comps[0]) && Plain(comps[1..]))
  }

  predicate PlainNode(c: Dropped)
    decreases c, 0
  {
    PlainProps(c.props) && Plain(c.children)
  }

  lemma StartsWithAppend(x: string, y: string, p: string)
    requires StartsWith(x, p)
    ensures StartsWith(x + y, p)
  {
    assert (x + y)[..|p|] == x[..|p|];
  }

  lemma NoNewlineLines(s: string, n: nat)
    requires '\n' !in s
    ensures LinesIndented(s, n)
  {
    forall i | 0 <= i < |s| - 1 ensures s[i] != '\n' {
      assert s[i] in s;
    }
  }

  /** Two pieces keep their indentation when joined, unless a line break at
      the end of the first is followed by an unindented second. */
  lemma CatIndented(a: string, b: string, n: nat)
    requires LinesIndented(a, n) && LinesIndented(b, n)
    requires a != [] && a[|a| - 1] == '\n' && b != [] ==> StartsWith(b, Spaces(n))
    ensures LinesIndented(a + b, n)
  {
    var s := a + b;
    forall i | 0 <= i < |s| - 1 && s[i] == '\n' ensures StartsWith(s[i + 1..], Spaces(n)) {
      if i < |a| - 1 {
        assert a[i] == '\n';
        assert s[i + 1..] == a[i + 1..] + b;
        StartsWithAppend(a[i + 1..], b, Spaces(n));
      } else if i == |a| - 1 {
        assert s[i + 1..] == b;
      } else {
        assert b[i - |a|] == '\n';
        assert s[i + 1..] == b[i - |a| + 1..];
      }
    }
  }

  lemma Deeper(s: string, n: nat)
    requires Indented(s, n + 1)
    ensures Indented(s, n)
  {
    assert s[..2 * n] == s[..2 * (n + 1)][..2 * n];
    forall i | 0 <= i < |s| - 1 && s[i] == '\n' ensures StartsWith(s[i + 1..], Spaces(n)) {
      var t := s[i + 1..];
      assert StartsWith(t, Spaces(n + 1));
      assert t[..2 * n] == t[..2 * (n + 1)][..2 * n];
    }
  }

  lemma AttributesNoNewline(props: seq<Prop>)
    requires PlainProps(props)
    ensures forall i :: 0 <= i < |Attributes(props)| ==> '\n' !in Attributes(props)[i]
  {
    if props != [] {
      var p := props[0];
      assert '\n' !in p.key;
      if p.value.Str? {
        EscapeRoundTrip(p.value.s);
      }
      assert PlainProps(props[1..]) by {
        forall i | 0 <= i < |props[1..]| ensures props[1..][i] == props[i + 1] {
        }
      }
      AttributesNoNewline(props[1..]);
    }
  }

  lemma OpenTagFacts(c: Dropped, n: nat)
    requires PlainProps(c.props)
    ensures StartsWith(OpenTag(c, n), Spaces(n)) && '\n' !in OpenTag(c, n)
  {
    var attrs := Join(Attributes(c.props), " ");
    AttributesNoNewline(c.props);
    if '\n' in attrs {
      JoinChars(Attributes(c.props), " ", '\n');
    }
    var rest := "<" + TagName(c.componentId) + (if attrs != "" then " " + attrs else "");
    assert OpenTag(c, n) == Spaces(n) + rest;
    StartsWithAppend(Spaces(n), rest, Spaces(n));
  }

  lemma LineBreakLines(n: nat)
    ensures LinesIndented("\n", n)
  {
  }

  /** A line break followed by indented text. */
  lemma BreakThen(t: string, n: nat)
    requires Indented(t, n)
    ensures LinesIndented("\n" + t, n)
  {
    LineBreakLines(n);
    CatIndented("\n", t, n);
  }

  /** A one-line element: it starts at its level and has no line break. */
  lemma FlatIndented(o: string, rest: string, n: nat)
    requires StartsWith(o, Spaces(n)) && '\n' !in o && '\n' !in rest
    requires rest != [] && rest[|rest| - 1] == '>'
    ensures Indented(o + rest, n) && (o + rest)[|o + rest| - 1] == '>'
  {
    StartsWithAppend(o, rest, Spaces(n));
    NoNewlineLines(o + rest, n);
  }

  /** An element with nested children: the inner text sits one level deeper
      between the opening line and the closing tag at the element's level. */
  lemma NestedIndented(o: string, g: string, tag: string, n: nat)
    requires StartsWith(o, Spaces(n)) && '\n' !in o && '\n' !in tag
    requires Indented(g, n + 1) && g != [] && g[|g| - 1] == '>'
    ensures var e := o + (">" + ("\n" + g + "\n" + Spaces(n)) + "</" + tag + ">");
      Indented(e, n) && e[|e| - 1] == '>'
  {
    Deeper(g, n);
    var tail := Spaces(n) + ("</" + tag + ">");
    TailIndented(tag, n);
    var body := ("\n" + g) + ("\n" + tail);
    BodyLines(g, tail, n);
    var inner := ">" + body;
    NoNewlineLines(">", n);
    CatIndented(">", body, n);
    NestedShape(g, Spaces(n), tag);
    NoNewlineLines(o, n);
    OpenThen(o, inner, n);
  }

  /** The closing line of a nested element. */
  lemma TailIndented(tag: string, n: nat)
    requires '\n' !in tag
    ensures var t := Spaces(n) + ("</" + tag + ">"); Indented(t, n) && t[|t| - 1] == '>'
  {
    TextCloseFacts("", tag);
    assert ">" + "" + "</" + tag + ">" == ">" + ("</" + tag + ">");
    StartsWithAppend(Spaces(n), "</" + tag + ">", Spaces(n));
    NoNewlineLines(Spaces(n) + ("</" + tag + ">"), n);
  }

  /** The nested lines followed by the closing line, each after a line break. */
  lemma BodyLines(g: string, tail: string, n: nat)
    requires Indented(g, n) && g != [] && g[|g| - 1] == '>'
    requires Indented(tail, n) && tail != []
    ensures LinesIndented(("\n" + g) + ("\n" + tail), n)
  {
    BreakThen(g, n);
    BreakThen(tail, n);
    assert ("\n" + g)[|"\n" + g| - 1] == '>';
    CatIndented("\n" + g, "\n" + tail, n);
  }

  /** The regrouping of a nested element's text after its opening tag. */
  lemma NestedShape(g: string, sp: string, tag: string)
    ensures ">" + ("\n" + g + "\n" + sp) + "</" + tag + ">" ==
      ">" + (("\n" + g) + ("\n" + (sp + ("</" + tag + ">"))))
  {
  }

  /** An opening line without line breaks followed by text that starts with
      `>` and whose later lines are indented. */
  lemma OpenThen(o: string, inner: string, n: nat)
    requires StartsWith(o, Spaces(n)) && LinesIndented(o, n) && '\n' !in o
    requires LinesIndented(inner, n) && inner != [] && inner[0] == '>' && inner[|inner| - 1] == '>'
    ensures Indented(o + inner, n) && (o + inner)[|o + inner| - 1] == '>'
  {
    if o != [] {
      assert o[|o| - 1] in o;
    }
    CatIndented(o, inner, n);
    StartsWithAppend(o, inner, Spaces(n));
  }

  /** Under a plain tree every element starts at its level, what it nests sits
      deeper, and its closing tag is back at its level. */
  lemma {:induction false} ElementIndented(c: Dropped, n: nat)
    requires ElementGenerable(c) && PlainNode(c)
    ensures var e := Element(c, n); Indented(e, n) && e != [] && e[|e| - 1] == '>'
    decreases c, 0
  {
    if c.children == [] {
      LeafIndented(c, n);
    } else {
      GenerateIndented(c.children, n + 1);
      NestedElementIndented(c, n);
    }
  }

  /** An element without nested children stays on one line. */
  lemma LeafIndented(c: Dropped, n: nat)
    requires ElementGenerable(c) && PlainProps(c.props) && c.children == []
    ensures var e := Element(c, n); Indented(e, n) && e != [] && e[|e| - 1] == '>'
  {
    var o := OpenTag(c, n);
    OpenTagFacts(c, n);
    if HasText(c.props) {
      EscapeRoundTrip(Get(c.props, "children").value.s);
      TextCloseFacts(EscapeJsx(Get(c.props, "children").value.s), TagName(c.componentId));
    }
    FlatIndented(o, AfterOpen(c, n), n);
  }

  /** The text and closing tag after an opening tag stay on its line. */
  lemma TextCloseFacts(x: string, tag: string)
    requires '\n' !in x && '\n' !in tag
    ensures var r := ">" + x + "</" + tag + ">"; '\n' !in r && r != [] && r[|r| - 1] == '>'
  {
  }

  /** An element with nested children, given that the children are indented
      one level deeper. */
  lemma NestedElementIndented(c: Dropped, n: nat)
    requires ElementGenerable(c) && PlainProps(c.props) && c.children != []
    requires var g := Generate(c.children, n + 1); Indented(g, n + 1) && g != [] && g[|g| - 1] == '>'
    ensures var e := Element(c, n); Indented(e, n) && e != [] && e[|e| - 1] == '>'
  {
    var o := OpenTag(c, n);
    var tag := TagName(c.componentId);
    var g := Generate(c.children, n + 1);
    OpenTagFacts(c, n);
    NestedIndented(o, g, tag, n);
  }

  /** Siblings joined by a line break, each indented. */
  lemma SiblingsIndented(e: string, rest: string, n: nat)
    requires Indented(e, n) && e != [] && e[|e| - 1] == '>'
    requires Indented(rest, n) && rest != [] && rest[|rest| - 1] == '>'
    ensures var s := e + "\n" + rest; Indented(s, n) && s[|s| - 1] == '>'
  {
    BreakThen(rest, n);
    CatIndented(e, "\n" + rest, n);
    StartsWithAppend(e, "\n" + rest, Spaces(n));
    assert e + "\n" + rest == e + ("\n" + rest);
  }

  /** A list of two or more elements: the first, a line break, the rest. */
  lemma GenerateCons(comps: seq<Dropped>, n: nat)
    requires Generable(comps) && |comps| > 1
    ensures Generable(comps[1..])
    ensures Generate(comps, n) == Element(comps[0], n) + "\n" + Generate(comps[1..], n)
  {
    var parts := Elements(comps, n);
    assert parts[1..] == Elements(comps[1..], n);
  }

  /** The generated text of a non-empty plain list is indented at its level. */
  lemma {:induction false} GenerateIndented(comps: seq<Dropped>, n: nat)
    requires Generable(comps) && Plain(comps) && comps != []
    ensures var g := Generate(comps, n); Indented(g, n) && g != [] && g[|g| - 1] == '>'
    decreases comps, 1
  {
    ElementIndented(comps[0], n);
    if |comps| > 1 {
      GenerateCons(comps, n);
      GenerateIndented(comps[1..], n);
      SiblingsIndented(Element(comps[0], n), Generate(comps[1..], n), n);
    } else {
      assert Elements(comps, n) == [Element(comps[0], n)];
    }
  }
}
