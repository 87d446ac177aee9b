/**
 * The abstract message trace. Every `SendPacket` / `CallMethod` of the managers
 * becomes one `Message` naming the client connection that receives it, the
 * entity the call is addressed to, and the kind of packet. Payload encoding is
 * not modelled; a kind carries only the fields the properties talk about.
 */
module Messages {

  import opened Wrappers

  /** A client connection (the recipient of a send). */
  type ClientId = int

  /** Where a call is addressed: a numeric entity id, or the system client-method entity. */
  datatype Address = Entity(id: int) | ClientMethod

  /** The entity class named in a create packet. */
  datatype EntityClass = ClassId(id: int) | CharacterSelectionPod

  /** The conversation status values the NPC code sends. */
  datatype ConversationStatus = ObjectiveComplete | MissionComplete | Available | Vending | NoStatus

  /** Result codes of the character-name check. */
  datatype CreateCharacterResult = Success | Rejected(code: int)

  /** Entity-data entries carried inside a create packet, in the order they are added. */
  datatype EntityData =
    | WorldLocation
    | IsTargetable(targetable: bool)
    | CreatureInfo(nameId: int)
    | Appearance
    | LevelData(level: int)
    | AttributeData
    | TargetCategoryData(category: int)
    | UpdateAttributes
    | IsRunningData(running: bool)
    | CharacterInfo(slot: int, flag: bool)

  /** The packet kinds the modelled managers send. */
  datatype Kind =
    // entity lifecycle
    | CreatePhysicalEntity(created: int, cls: EntityClass, data: seq<EntityData>)
    | DestroyPhysicalEntity(destroyed: int)
    // player describe sequence
    | AttributeInfo
    | PreloadData
    | AppearanceData
    | ActorControllerInfo
    | Level
    | CharacterClass
    | CharacterName
    | ActorName
    | IsRunning
    | LogosStoneTabula
    | WorldLocationDescriptor
    | TargetCategory
    | PlayerFlags
    // advancement
    | Skills
    | Abilities
    | AvailableAllocationPoints(attributePoints: int, skillPoints: int)
    | AbilityDrawer
    // effects
    | GameEffectAttached(effectTypeId: int, effectId: int, effectLevel: int, duration: int)
    | MovementModChange(tenths: int)
    // NPCs; the None status is sent with a null package list
    | NpcConversationStatus(status: ConversationStatus, packages: Option<seq<int>>)
    // character selection
    | BeginCharacterSelection(accountId: int)
    | GeneratedCharacterName(name: string)
    | GeneratedFamilyName(name: string)
    | UserCreationFailed(result: CreateCharacterResult)
    | CharacterCreateSuccess(slotNum: int, familyName: string)

  /** One send: recipient connection, addressed entity, packet kind. */
  datatype Message = Message(to: ClientId, addr: Address, kind: Kind)

  /** A trace event: a send, or a release of an entity id to the entity registry. */
  datatype Event = Send(msg: Message) | FreeEntity(entityId: int)

  /** The system entity id 5 the managers address create/destroy packets to. */
  const SystemEntity: int := 5
}
