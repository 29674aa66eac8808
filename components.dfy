/** Components of the entity store that carry no physics. */
module Components {
  import opened Wrappers
  import Dialog

  /** An entity slot's index in every component collection. */
  type EntityIndex = nat

  /**
   * An NPC component. The current snapshot records the roster id; the
   * older ones store only the name and have `None` here.
   */
  datatype Npc = Npc(id: Option<nat>, name: string)

  /** One record of the NPC roster, as the roster loader delivers it. */
  datatype NpcRecord = NpcRecord(id: nat, name: string, mainInteraction: Option<Dialog.Interaction>)

  /**
   * The interaction older snapshots build with the one-argument
   * `Interaction::new(id)`: a conversation with entity `target`. Its other
   * contents are not part of this model.
   */
  datatype Engagement = Engagement(target: EntityIndex)

  /** The player component of the oldest entity store. */
  datatype PlayerComponent = PlayerComponent(interacting: Option<Engagement>, currentFocus: Option<EntityIndex>)
}
