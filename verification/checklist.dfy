/** The checklist editor the create, edit and sub-task forms share: add an
    item from the text field, tick or untick an item, delete an item. */
module Checklists {
  import opened Domain
  import opened Text
  import Lists

  /** The add button: a text that is not blank becomes a new unchecked item
      with id 0 at the end; a blank text adds nothing. */
  function WithNewItem(checklist: seq<ChecklistItem>, text: string): (r: seq<ChecklistItem>)
    ensures IsBlank(text) ==> r == checklist
    ensures !IsBlank(text) ==>
      (|r| == |checklist| + 1 && r[..|checklist|] == checklist &&
       r[|checklist|].text == text && !r[|checklist|].isCompleted)
  {
    if IsBlank(text) then checklist else checklist + [ChecklistItem(0, text, false)]
  }

  /** What the text field holds after the add button: cleared when an item
      was added. */
  function FieldAfterAdd(text: string): string
  {
    if IsBlank(text) then text else ""
  }

  /** The checkbox of row `index`: that item's completion becomes `done`. */
  function WithCompleted(checklist: seq<ChecklistItem>, index: int, done: bool): (r: seq<ChecklistItem>)
    requires 0 <= index < |checklist|
    ensures |r| == |checklist|
    ensures r[index].isCompleted == done && r[index].text == checklist[index].text && r[index].id == checklist[index].id
    ensures forall j :: 0 <= j < |r| && j != index ==> r[j] == checklist[j]
  {
    checklist[index := checklist[index].(isCompleted := done)]
  }

  /** Ticking and unticking the same row restores the checklist, and ticking
      twice is the same as ticking once. */
  lemma TickThenUntickItem(checklist: seq<ChecklistItem>, index: int)
    requires 0 <= index < |checklist| && !checklist[index].isCompleted
    ensures WithCompleted(WithCompleted(checklist, index, true), index, false) == checklist
    ensures WithCompleted(WithCompleted(checklist, index, true), index, true) == WithCompleted(checklist, index, true)
  {
    var once := WithCompleted(checklist, index, true);
    var back := WithCompleted(once, index, false);
    assert back[index] == checklist[index];
    assert forall j :: 0 <= j < |back| ==> back[j] == checklist[j];
    var twice := WithCompleted(once, index, true);
    assert forall j :: 0 <= j < |twice| ==> twice[j] == once[j];
  }

  /** An item added and then deleted with its row's button leaves the
      checklist as it was. */
  lemma AddThenDeleteItem(checklist: seq<ChecklistItem>, text: string)
    requires !IsBlank(text)
    ensures Lists.RemoveAt(WithNewItem(checklist, text), |checklist|) == checklist
  {
    Lists.RemoveAtAfterAppend(checklist, ChecklistItem(0, text, false));
  }
}
