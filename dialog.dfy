/**
 * The dialog tree: each node has the text to show, the labels of its
 * options, the sub-tree each option leads to, and the option the cursor
 * is on.
 */
module Dialog {
  import opened Wrappers

  datatype Interaction = Interaction(
    hoveredOption: nat,
    options: Option<seq<string>>,
    subInteractions: SubInteractions,
    dialog: string)

  /**
   * The optional list of sub-trees, one per option. It is a datatype of its
   * own (rather than an `Option` of a sequence) so that each sub-tree is
   * structurally smaller than the node holding it.
   */
  datatype SubInteractions = NoSubInteractions | SubInteractions(value: seq<Interaction>)

  /** `Interaction::new`: the cursor starts on the first option; the rest is stored as given. */
  function New(options: Option<seq<string>>, subInteractions: SubInteractions, dialog: string)
    : (i: Interaction)
    ensures i.hoveredOption == 0
    ensures i.options == options && i.subInteractions == subInteractions && i.dialog == dialog
  {
    Interaction(0, options, subInteractions, dialog)
  }

  /** `Interaction::default`: a greeting with nothing to choose. */
  function Default(): (i: Interaction)
    ensures i.hoveredOption == 0 && i.options == None && i.subInteractions == NoSubInteractions
    ensures i.dialog == "Hi!"
  {
    Interaction(0, None, NoSubInteractions, "Hi!")
  }

  /**
   * The shape the tree is meant to have (it is never checked on load): a
   * node with sub-interactions has one option label per sub-interaction, at
   * least one of them, and its cursor on one of them; a node without has no
   * options; every sub-tree has the same shape.
   */
  predicate WellFormed(i: Interaction)
    decreases i
  {
    match i.subInteractions
    case NoSubInteractions => i.options.None?
    case SubInteractions(subs) =>
      && i.options.Some?
      && |i.options.value| == |subs|
      && 0 < |subs|
      && i.hoveredOption < |subs|
      && forall s :: s in subs ==> WellFormed(s)
  }

  /** The default greeting is a well-formed (leaf) tree. */
  lemma DefaultWellFormed()
    ensures WellFormed(Default())
  {
  }
}
