/**
 * The node-editing dialog (src/components/Modal.tsx): the label being edited,
 * whether it was changed, the save button that is enabled only after a change,
 * and what the dialog hands to its `onSave` callback.
 */
module LabelEditing {
  import opened Options
  import opened Js
  import opened NodeTypes

  /** What an open dialog shows: the label in the input and whether Save is enabled. */
  datatype EditorView = EditorView(text: Value, saveEnabled: bool)

  /**
   * The argument the editor's caller expects: `{label: nodeLabel}`, the shape
   * `handleSaveChanges` spreads into the node's data.
   */
  function LabelUpdates(nodeLabel: Value): (updates: Value)
    ensures updates.Obj? && updates.fields.Keys == {"label"} && updates.fields["label"] == nodeLabel
  {
    Obj(map["label" := nodeLabel])
  }

  class LabelEditor {
    var nodeLabel: Value
    var hasChanges: bool

    /** The label starts empty; the change flag starts as the caller's `hasChanges`. */
    constructor (initialHasChanges: bool)
      ensures nodeLabel == Str("") && hasChanges == initialHasChanges
    {
      nodeLabel := Str("");
      hasChanges := initialHasChanges;
    }

    /**
     * The effect run when the node or `isOpen` changes: with a node and the
     * dialog open, the label becomes the node's label (or `''`) and the change
     * flag drops; otherwise nothing changes.
     */
    method Reset(node: Option<AppNode>, isOpen: bool)
      modifies this
      ensures node.Some? && isOpen ==>
        nodeLabel == Or(Get(node.value.data, "label"), Str("")) && !hasChanges
      ensures !(node.Some? && isOpen) ==> nodeLabel == old(nodeLabel) && hasChanges == old(hasChanges)
    {
      if node.Some? && isOpen {
        nodeLabel := Or(Get(node.value.data, "label"), Str(""));
        hasChanges := false;
      }
    }

    /** `handleLabelChange`: any edit, even one that restores the old text, raises the change flag. */
    method ChangeLabel(text: string)
      modifies this
      ensures nodeLabel == Str(text) && hasChanges
    {
      nodeLabel := Str(text);
      hasChanges := true;
    }

    /**
     * Clicking Save as the dialog is written: disabled until the label was
     * changed, then `handleSave` passes the label string itself to `onSave`.
     */
    method ClickSave() returns (sent: Option<Value>)
      ensures hasChanges ==> sent == Some(nodeLabel)
      ensures !hasChanges ==> sent == None
    {
      if hasChanges {
        sent := Some(nodeLabel);
      } else {
        sent := None;
      }
    }

    /** Clicking Save with the argument `handleSaveChanges` expects: `{label: nodeLabel}`. */
    method ClickSaveUpdates() returns (sent: Option<Value>)
      ensures hasChanges ==> sent == Some(LabelUpdates(nodeLabel))
      ensures !hasChanges ==> sent == None
    {
      if hasChanges {
        sent := Some(LabelUpdates(nodeLabel));
      } else {
        sent := None;
      }
    }

    /** What the dialog renders: nothing when closed; the label and the Save button's state when open. */
    function Rendered(isOpen: bool): (view: Option<EditorView>)
      reads this
      ensures view.Some? <==> isOpen
      ensures view.Some? ==> view.value.text == nodeLabel && (view.value.saveEnabled <==> hasChanges)
    {
      if isOpen then Some(EditorView(nodeLabel, hasChanges)) else None
    }
  }
}
