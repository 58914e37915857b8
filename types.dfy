/** The records the plugin exchanges with its host runtime and its backend. */
module Types {
  import opened Wrappers

  /** Identifiers produced by the host's `stringToUuid`. */
  type Uuid = string

  /**
   * The value of one avatar attribute. The source tests every attribute with
   * `Array.isArray`, so any of them may be a list.
   */
  datatype AttrValue = Scalar(text: string) | Items(items: seq<string>)

  /** Avatar attributes: two colour descriptors and six wearable descriptions. */
  datatype AvatarAttributes = AvatarAttributes(
    skinTone: string,
    facialFeatures: string,
    eyewear: AttrValue,
    hat: AttrValue,
    top: AttrValue,
    bottom: AttrValue,
    shoes: AttrValue,
    accessories: AttrValue)

  /** The metadata attached to a memory recorded for a generated outfit (`source: "OUTFIT_GENERATION"`). */
  datatype OutfitMetadata = OutfitMetadata(similarity: real, llmText: AttrValue, wearableId: Uuid)

  /** A memory's content: its text, an optional `slots` list and optional outfit metadata. */
  datatype Content = Content(text: string, slots: Option<seq<string>>, metadata: Option<OutfitMetadata>)

  /** A memory record of the host store; `createdAt` may be absent. */
  datatype Memory = Memory(
    id: Uuid,
    agentId: Uuid,
    userId: Uuid,
    roomId: Uuid,
    content: Content,
    createdAt: Option<int>,
    unique: bool)

  /** One key of a catalogue entry other than `_id` and `aiDescription`, in key order. */
  datatype Field = Field(key: string, value: string)

  /** A wearable as the backend sends it: flat `slots[N]` keys among its fields. */
  datatype RawWearable = RawWearable(id: string, aiDescription: string, fields: seq<Field>)

  /** A normalised wearable: its slot tags as an ordered list. */
  datatype Wearable = Wearable(id: string, aiDescription: string, slots: seq<string>)

  /** The payload of `getWearables` (`data.wearables`). */
  datatype WearablesResponse = WearablesResponse(wearables: seq<RawWearable>)
}
