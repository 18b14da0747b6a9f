/**
 * Renaming a node end to end: the editor opens the dialog on the node, the
 * user edits the label and clicks Save, and the editor saves what the dialog
 * hands over. As the two components are written, the dialog hands over the
 * label string while the editor spreads its argument as an object of fields.
 */
module EditFlow {
  import opened Options
  import opened Text
  import opened Js
  import opened NodeTypes
  import opened NodeIds
  import opened GraphEdits
  import opened FlowApp
  import opened LabelEditing

  /**
   * As written: saving the bare label string spreads it into index keys
   * `"0"`, `"1"`, ... one character each; the node's label stays what it was,
   * and a button's new click handler reads `label` off the string, so it
   * alerts `undefined clicked!`.
   */
  lemma StringSaveKeepsLabel(node: AppNode, text: string)
    ensures "label" in node.data ==>
      "label" in SavedData(node, Str(text)) && SavedData(node, Str(text))["label"] == node.data["label"]
    ensures "label" !in node.data ==> "label" !in SavedData(node, Str(text))
    ensures forall i: nat :: i < |text| ==>
      Decimal(i) in SavedData(node, Str(text)) && SavedData(node, Str(text))[Decimal(i)] == Str([text[i]])
    ensures node.kind == ButtonType ==>
      ClickText(SavedData(node, Str(text))["onClick"].callback) == Done("undefined clicked!")
  {
    var spread := Spread(Str(text));
    assert !IsDigit("label"[0]);
    assert "label" !in spread;
    assert "label" != "length";
    assert Property(Str(text), "label") == Done(Undefined);
    assert ClickText(AlertLabelOf(Str(text))) == Done("undefined" + " clicked!");
    assert "undefined" + " clicked!" == "undefined clicked!";
    assert !IsDigit("onClick"[0]);
    forall i: nat | i < |text|
      ensures Decimal(i) in SavedData(node, Str(text)) && SavedData(node, Str(text))[Decimal(i)] == Str([text[i]])
    {
      DecimalDigits(i);
      assert Decimal(i) in spread && spread[Decimal(i)] == Chars(text)[i];
    }
  }

  /** The rename the user sees fail: a new button node renamed to `Hi` keeps the label `Node 1`. */
  lemma RenameIsLost(position: Position)
    ensures var node := NewButtonNode(NodeId(1), position);
      && SavedData(node, Str("Hi"))["label"] == Str("Node 1")
      && ClickText(SavedData(node, Str("Hi"))["onClick"].callback) == Done("undefined clicked!")
  {
    NewNodeOfNodeId(1, position);
    assert Decimal(1) == "1";
    StringSaveKeepsLabel(NewButtonNode(NodeId(1), position), "Hi");
  }

  /**
   * Corrected: saving `{label: text}` gives the node that label, keeps every
   * other field but a button's click handler, and the handler alerts the new
   * label.
   */
  lemma LabelUpdatesSetLabel(node: AppNode, text: string)
    ensures SavedData(node, LabelUpdates(Str(text)))["label"] == Str(text)
    ensures forall k :: k in node.data && k != "label" && !(node.kind == ButtonType && k == "onClick") ==>
      k in SavedData(node, LabelUpdates(Str(text))) && SavedData(node, LabelUpdates(Str(text)))[k] == node.data[k]
    ensures node.kind == ButtonType ==>
      ClickText(SavedData(node, LabelUpdates(Str(text)))["onClick"].callback) == Done(text + " clicked!")
  {
    if node.kind == ButtonType {
      SaveLabelOfButton(node, map["label" := Str(text)]);
    }
  }

  /**
   * A rename through both components, with the dialog handing over
   * `{label: text}`: every node with the edited node's id gets the new label,
   * the other nodes are untouched and the dialog closes.
   */
  method EditAndSave(app: App, editor: LabelEditor, node: AppNode, text: string)
    requires app.Valid()
    modifies app, editor
    ensures app.Valid() && !app.isModalOpen && app.selectedNode == None
    ensures app.nodes == ApplySave(old(app.nodes), node.id, LabelUpdates(Str(text)))
    ensures forall i :: 0 <= i < |app.nodes| && old(app.nodes)[i].id == node.id ==>
      app.nodes[i].data["label"] == Str(text)
    ensures forall i :: 0 <= i < |app.nodes| && old(app.nodes)[i].id != node.id ==>
      app.nodes[i] == old(app.nodes)[i]
    ensures app.edges == old(app.edges)
  {
    app.EditNode(node);
    editor.Reset(app.selectedNode, app.isModalOpen);
    editor.ChangeLabel(text);
    var sent := editor.ClickSaveUpdates();
    app.SaveChanges(sent.value);
    forall i | 0 <= i < |app.nodes| && old(app.nodes)[i].id == node.id
      ensures app.nodes[i].data["label"] == Str(text)
    {
      LabelUpdatesSetLabel(old(app.nodes)[i], text);
    }
  }
}
