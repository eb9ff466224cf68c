/** The visual editor's store (gui-edit/src/stores/component-editor.ts): the
    canvas tree, the selected and hovered ids, and the palette of components. */
module ComponentEditorModel {
  import opened Wrappers
  import opened ComponentTree
  import opened ComponentCodegen

  function Def(id: string, name: string, category: string, icon: string,
               props: seq<Prop>, allowChildren: bool): ComponentDefinition
  {
    ComponentDefinition(id, name, category, icon, props, allowChildren)
  }

  /** The palette, in the order the toolbox shows it. */
  const DefaultComponents: seq<ComponentDefinition> := [
    Def("div", "Container", "Layout", "Square", [Prop("className", Str("p-4"))], true),
    Def("flex", "Flex", "Layout", "LayoutList", [Prop("className", Str("flex gap-4"))], true),
    Def("grid", "Grid", "Layout", "Grid3x3", [Prop("className", Str("grid grid-cols-2 gap-4"))], true),
    Def("button", "Button", "Form", "MousePointer2", [Prop("variant", Str("default")), Prop("children", Str("Button"))], false),
    Def("input", "Input", "Form", "TextCursorInput", [Prop("placeholder", Str("Enter text...")), Prop("type", Str("text"))], false),
    Def("textarea", "Textarea", "Form", "AlignLeft", [Prop("placeholder", Str("Enter text...")), Prop("rows", Num(3))], false),
    Def("card", "Card", "Display", "RectangleHorizontal", [Prop("className", Str("p-4 border rounded-lg"))], true),
    Def("text", "Text", "Typography", "Type", [Prop("className", Str("text-base")), Prop("children", Str("Text"))], false),
    Def("heading", "Heading", "Typography", "Heading", [Prop("className", Str("text-2xl font-bold")), Prop("children", Str("Heading"))], false),
    Def("image", "Image", "Media", "Image", [Prop("src", Str("https://via.placeholder.com/150")), Prop("alt", Str("placeholder")), Prop("className", Str("rounded"))], false),
    Def("badge", "Badge", "Display", "Tag", [Prop("variant", Str("default")), Prop("children", Str("Badge"))], false),
    Def("separator", "Separator", "Layout", "Minus", [Prop("className", Str("my-4"))], false)
  ]

  /** A fresh drop of a definition whose text, when it has one, is a string
      can be turned into code; with no line break in its keys and values its
      code is indented line by line. */
  lemma NewComponentGenerable(def: ComponentDefinition, id: string, parentId: Option<string>)
    requires TextIsString(def.defaultProps)
    ensures var n := NewComponent(def, id, parentId); ElementGenerable(n) && Generable(n.children)
    ensures PlainProps(def.defaultProps) ==> PlainNode(NewComponent(def, id, parentId))
  {
  }

  class ComponentEditor {
    var components: seq<Dropped>
    var selectedComponentId: Option<string>
    var hoveredComponentId: Option<string>

    constructor()
      ensures components == [] && selectedComponentId == None && hoveredComponentId == None
    {
      components, selectedComponentId, hoveredComponentId := [], None, None;
    }

    /** `addComponent`: a new node with the definition's props and no children
        goes at the end of the roots or of the parent's children, and becomes
        selected (even when no node has the parent's id); the new id is given
        by the caller. */
    method AddComponent(def: ComponentDefinition, parentId: Option<string>, newId: string)
      modifies this
      ensures components == AddToParent(old(components), parentId, NewComponent(def, newId, parentId))
      ensures selectedComponentId == Some(newId) && hoveredComponentId == old(hoveredComponentId)
      ensures parentId.Some? && parentId.value !in Ids(old(components)) ==> components == old(components)
      ensures parentId.Some? && parentId.value in Ids(old(components)) ==>
        var p := Find(components, parentId.value);
        p.Some? && |p.value.children| > 0 && p.value.children[|p.value.children| - 1] == NewComponent(def, newId, parentId)
      ensures Ids(components) == Ids(old(components)) +
        (if parentId.None? || parentId.value in Ids(old(components)) then {newId} else {})
    {
      var n := NewComponent(def, newId, parentId);
      if parentId.None? {
        IdsAppend(components, [n]);
        assert Ids([n]) == {newId} by {
          assert [n][1..] == [];
        }
      } else {
        AddUnderIds(components, parentId.value, n);
      }
      components := AddToParent(components, parentId, n);
      selectedComponentId := Some(newId);
    }

    /** `removeComponent`: every node with the id goes, with its subtree; the
        selection is cleared exactly when it was that id. */
    method RemoveComponent(id: string)
      modifies this
      ensures components == Remove(old(components), id)
      ensures Ids(components) <= Ids(old(components)) - {id}
      ensures id !in Ids(old(components)) ==> components == old(components)
      ensures selectedComponentId == if old(selectedComponentId) == Some(id) then None else old(selectedComponentId)
      ensures hoveredComponentId == old(hoveredComponentId)
    {
      RemoveIds(components, id);
      if id !in Ids(components) {
        RemoveAbsent(components, id);
      }
      components := Remove(components, id);
      if selectedComponentId == Some(id) {
        selectedComponentId := None;
      }
    }

    /** `updateComponentProps`: the node for the id gets the new props merged
        over its own; every other id finds its node with the same props. */
    method UpdateComponentProps(id: string, props: seq<Prop>)
      modifies this
      ensures components == UpdateProps(old(components), id, props)
      ensures Ids(components) == Ids(old(components))
      ensures forall x :: var before := Find(old(components), x);
        var after := Find(components, x);
        after.Some? == before.Some? &&
        (before.Some? ==> after.value.props == if x == id then Merge(before.value.props, props) else before.value.props)
      ensures selectedComponentId == old(selectedComponentId) && hoveredComponentId == old(hoveredComponentId)
    {
      var before := components;
      UpdatePropsIds(before, id, props);
      components := UpdateProps(before, id, props);
      forall x ensures var b := Find(before, x);
        var a := Find(components, x);
        a.Some? == b.Some? && (b.Some? ==> a.value.props == if x == id then Merge(b.value.props, props) else b.value.props)
      {
        UpdatePropsFind(before, id, props, x);
      }
    }

    method SelectComponent(id: Option<string>)
      modifies this
      ensures selectedComponentId == id
      ensures components == old(components) && hoveredComponentId == old(hoveredComponentId)
    {
      selectedComponentId := id;
    }

    method SetHoveredComponent(id: Option<string>)
      modifies this
      ensures hoveredComponentId == id
      ensures components == old(components) && selectedComponentId == old(selectedComponentId)
    {
      hoveredComponentId := id;
    }

    /** `moveComponent`: nothing happens for an id not in the tree; otherwise
        the node goes to its new place with its new `parentId`, or is lost
        with its subtree when the new parent is not in the tree once the node
        is taken out. */
    method MoveComponent(id: string, newParentId: Option<string>, newIndex: int)
      modifies this
      ensures components == Move(old(components), id, newParentId, newIndex)
      ensures id !in Ids(old(components)) ==> components == old(components)
      ensures id in Ids(old(components)) && (newParentId.None? || newParentId.value in Ids(Remove(old(components), id))) ==>
        var m := Find(old(components), id);
        m.Some? && Find(components, id) == Some(m.value.(parentId := newParentId))
      ensures id in Ids(old(components)) && newParentId.Some? && newParentId.value !in Ids(Remove(old(components), id)) ==>
        components == Remove(old(components), id)
      ensures selectedComponentId == old(selectedComponentId) && hoveredComponentId == old(hoveredComponentId)
    {
      var before := components;
      if id !in Ids(before) {
        MoveAbsent(before, id, newParentId, newIndex);
      } else if newParentId.None? || newParentId.value in Ids(Remove(before, id)) {
        MoveFound(before, id, newParentId, newIndex);
      } else {
        MoveToMissingParent(before, id, newParentId.value, newIndex);
      }
      var found := FindComponent(before, id);
      if found.Some? {
        components := AddAt(Remove(before, id), newParentId, newIndex, found.value);
      }
    }

    /** `clearCanvas`: no components and no selection; the hovered id stays. */
    method ClearCanvas()
      modifies this
      ensures components == [] && selectedComponentId == None
      ensures hoveredComponentId == old(hoveredComponentId)
    {
      components, selectedComponentId := [], None;
    }

    method SetComponents(comps: seq<Dropped>)
      modifies this
      ensures components == comps
      ensures selectedComponentId == old(selectedComponentId) && hoveredComponentId == old(hoveredComponentId)
    {
      components := comps;
    }

    /** `getComponentById`: the first node with the id in pre-order, if any. */
    method GetComponentById(id: string) returns (r: Option<Dropped>)
      ensures r == Find(components, id)
      ensures r.None? <==> id !in Ids(components)
      ensures r.Some? ==> r.value.id == id
    {
      FindMeaning(components, id);
      r := FindComponent(components, id);
    }
  }
}
