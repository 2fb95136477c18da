/** The safety guidelines accordion: at most one item is open at a time. */
module SafetyAccordion {
  import opened Wrappers

  /** `toggleAccordion(index)` on the open item `open`: the open item closes, any other opens alone. */
  function Toggled(open: Option<nat>, index: nat): (r: Option<nat>)
    ensures open == Some(index) ==> r == None
    ensures open != Some(index) ==> r == Some(index)
  {
    if open == Some(index) then None else Some(index)
  }

  /** The items out of `count` whose content is rendered. */
  function Visible(open: Option<nat>, count: nat): (r: set<nat>)
    ensures forall i: nat :: i in r <==> i < count && open == Some(i)
    ensures |r| <= 1
  {
    if open.Some? && open.value < count then {open.value} else {}
  }

  /** Toggling an item opens it exactly when it was not the open one, whatever else was open. */
  lemma ToggleShowsOnlyThatItem(open: Option<nat>, index: nat, count: nat)
    requires index < count
    ensures Visible(Toggled(open, index), count) == if open == Some(index) then {} else {index}
  {
    if open == Some(index) {
      assert Visible(None, count) == {};
    }
  }

  class Accordion {
    var openIndex: Option<nat>

    /** No item is open at first. */
    constructor ()
      ensures openIndex == None
    {
      openIndex := None;
    }

    method Toggle(index: nat)
      modifies this
      ensures openIndex == Toggled(old(openIndex), index)
    {
      openIndex := if openIndex == Some(index) then None else Some(index);
    }

    /** Whether the item's content is rendered (`openIndex === index`). */
    function IsOpen(index: nat): (open: bool)
      reads this
      ensures open <==> openIndex == Some(index)
      // the item is open exactly when its content is rendered
      ensures open <==> index in Visible(openIndex, index + 1)
      ensures open ==> forall other: nat | other != index :: openIndex != Some(other)
    {
      openIndex == Some(index)
    }
  }
}
