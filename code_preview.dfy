/** The module text the visual editor previews
    (gui-edit/src/components/visual-editor/CodePreview.tsx): the import lines
    of the UI components the canvas uses, sorted, then a default-exported
    component that returns the generated elements. */
module CodePreviewModel {
  import opened Wrappers
  import opened Strings
  import opened Ordering
  import opened ComponentTree
  import opened ComponentCodegen

  const Placeholder: string := "// Add components to generate code"

  /** The five kinds backed by a UI component, and their import lines. */
  const KnownImports: seq<string> := [
    "import { Button } from \"@/components/ui/button\";",
    "import { Input } from \"@/components/ui/input\";",
    "import { Textarea } from \"@/components/ui/textarea\";",
    "import { Badge } from \"@/components/ui/badge\";",
    "import { Separator } from \"@/components/ui/separator\";"
  ]

  /** The `switch` of `collectImports`. */
  function ImportLine(componentId: string): (r: Option<string>)
    ensures r.Some? <==> componentId in ["button", "input", "textarea", "badge", "separator"]
    ensures r.Some? ==> r.value in KnownImports
  {
    if componentId == "button" then Some(KnownImports[0])
    else if componentId == "input" then Some(KnownImports[1])
    else if componentId == "textarea" then Some(KnownImports[2])
    else if componentId == "badge" then Some(KnownImports[3])
    else if componentId == "separator" then Some(KnownImports[4])
    else None
  }

  function Own(c: Dropped): seq<string> {
    var l := ImportLine(c.componentId);
    if l.Some? then [l.value] else []
  }

  /** The import line of every node, in pre-order, repeats included. */
  function ImportsOf(comps: seq<Dropped>): seq<string>
    decreases comps
  {
    if comps == [] then []
    else Own(comps[0]) + ImportsOf(comps[0].children) + ImportsOf(comps[1..])
  }

  /** A list split into its first node and the rest. */
  lemma ImportsOfCons(c: Dropped, rest: seq<Dropped>)
    ensures ImportsOf([c] + rest) == Own(c) + ImportsOf(c.children) + ImportsOf(rest)
  {
    assert ([c] + rest)[0] == c;
    assert ([c] + rest)[1..] == rest;
  }

  /** Only the five kinds contribute import lines. */
  lemma {:induction false} ImportsKnown(comps: seq<Dropped>)
    ensures forall x :: x in ImportsOf(comps) ==> x in KnownImports
    decreases comps
  {
    if comps != [] {
      ImportsKnown(comps[0].children);
      ImportsKnown(comps[1..]);
    }
  }

  /** Every node is visited, at any depth: the node the id finds contributes
      its import line. */
  lemma {:induction false} ImportsCover(comps: seq<Dropped>, id: string)
    requires Find(comps, id).Some?
    ensures var l := ImportLine(Find(comps, id).value.componentId);
      l.Some? ==> l.value in ImportsOf(comps)
    decreases comps
  {
    var c := comps[0];
    if c.id != id {
      if Find(c.children, id).Some? {
        ImportsCover(c.children, id);
      } else {
        ImportsCover(comps[1..], id);
      }
    }
  }

  /** Without repeats: the insertion order of a JavaScript `Set`. */
  predicate Distinct(xs: seq<string>) {
    forall i, j :: 0 <= i < j < |xs| ==> xs[i] != xs[j]
  }

  /** `Set.add`: a value already present keeps its place. */
  function SetAdd(xs: seq<string>, x: string): (r: seq<string>)
    requires Distinct(xs)
    ensures Distinct(r) && xs <= r
    ensures forall k :: k in r <==> k in xs || k == x
  {
    if x in xs then xs else xs + [x]
  }

  /** `collectImports(comps)` run on the set `acc`: it gains every line of the
      tree, each once, after the lines it had. */
  method CollectImports(comps: seq<Dropped>, acc: seq<string>) returns (out: seq<string>)
    requires Distinct(acc)
    ensures Distinct(out) && acc <= out
    ensures forall k :: k in out <==> k in acc || k in ImportsOf(comps)
    decreases comps
  {
    out := acc;
    var i := 0;
    while i < |comps|
      invariant 0 <= i <= |comps|
      invariant Distinct(out) && acc <= out
      invariant forall k :: k in out || k in ImportsOf(comps[i..]) <==> k in acc || k in ImportsOf(comps)
    {
      var comp := comps[i];
      assert comps[i..] == [comp] + comps[i + 1..];
      ImportsOfCons(comp, comps[i + 1..]);
      var line := ImportLine(comp.componentId);
      if line.Some? {
        out := SetAdd(out, line.value);
      }
      assert comp in comps;
      out := CollectImports(comp.children, out);
      i := i + 1;
    }
  }

  /** The import block: the distinct lines in ascending order, one per line. */
  function ImportsText(comps: seq<Dropped>): string {
    Join(SetOf(ImportsOf(comps)), "\n")
  }

  /** `generatedCode`: the placeholder for an empty canvas; otherwise the
      import block, a blank line when it is not empty, and the component
      whose body returns the elements at two levels of indentation. */
  function ModuleText(comps: seq<Dropped>): (r: string)
    requires Generable(comps)
    ensures comps == [] ==> r == Placeholder
  {
    if comps == [] then Placeholder
    else
      var importsStr := ImportsText(comps);
      importsStr + (if importsStr != "" then "\n\n" else "") +
      Header + Generate(comps, 2) + Footer
  }

  /** The import lines are sorted, each appears once, and they are exactly the
      lines of the kinds used in the tree. */
  lemma ImportLinesSorted(comps: seq<Dropped>)
    ensures var lines := SetOf(ImportsOf(comps));
      StrictlySorted(lines) && (forall i, j :: 0 <= i < j < |lines| ==> lines[i] != lines[j]) &&
      (forall k :: k in lines <==> k in ImportsOf(comps)) &&
      (forall k :: k in lines ==> k in KnownImports)
  {
    var lines := SetOf(ImportsOf(comps));
    forall i, j | 0 <= i < j < |lines| ensures lines[i] != lines[j] {
      StrictlySortedDistinct(lines, i, j);
    }
    ImportsKnown(comps);
  }

  /** The import block is empty exactly when no node has an import. */
  lemma ImportsTextEmpty(comps: seq<Dropped>)
    ensures ImportsText(comps) == "" <==> ImportsOf(comps) == []
  {
    var lines := SetOf(ImportsOf(comps));
    if ImportsOf(comps) != [] {
      assert ImportsOf(comps)[0] in ImportsOf(comps);
      assert lines != [];
      assert lines[|lines| - 1] in KnownImports by { ImportsKnown(comps); }
      JoinLastChar(lines, "\n");
    }
  }

  /** The text starts with the import block, followed by a blank line exactly
      when there are imports, and then by the component. */
  lemma ModuleLayout(comps: seq<Dropped>)
    requires Generable(comps) && comps != []
    ensures var r := ModuleText(comps);
      (ImportsOf(comps) == [] ==> StartsWith(r, Header)) &&
      (ImportsOf(comps) != [] ==> StartsWith(r, ImportsText(comps) + "\n\n" + Header)) &&
      EndsWith(r, Footer)
  {
    ImportsTextEmpty(comps);
    Layout(ImportsText(comps), Generate(comps, 2));
  }

  const Header: string := "export default function Component() {\n  return (\n"
  const Footer: string := "\n  );\n}"

  lemma Layout(imports: string, code: string)
    ensures var r := imports + (if imports != "" then "\n\n" else "") + Header + code + Footer;
      (imports == "" ==> StartsWith(r, Header)) &&
      (imports != "" ==> StartsWith(r, imports + "\n\n" + Header)) &&
      EndsWith(r, Footer)
  {
    var sep := if imports != "" then "\n\n" else "";
    var p := imports + sep + Header;
    assert (p + code + Footer)[..|p|] == p;
    var q := p + code;
    assert (q + Footer)[|q|..] == Footer;
  }

  /** `generatedCode` as the component computes it: the set filled by walking
      the tree, then sorted and joined. */
  method GeneratedCode(comps: seq<Dropped>) returns (code: string)
    requires Generable(comps)
    ensures code == ModuleText(comps)
  {
    if |comps| == 0 {
      return Placeholder;
    }
    var imports := CollectImports(comps, []);
    // The lines are distinct, so sorting them gives their ascending set.
    var sorted := SetOf(imports);
    SortedUnique(sorted, SetOf(ImportsOf(comps)));
    var importsStr := Join(sorted, "\n");
    var componentCode := Generate(comps, 2);
    code := importsStr + (if importsStr != "" then "\n\n" else "") +
      Header + componentCode + Footer;
  }
}
