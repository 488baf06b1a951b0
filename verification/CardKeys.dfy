/** Which keys of a Card the spine models, and which ones a client's map may carry. */
module CardKeys {
  import opened JsonValue

  const CARD_FIELD_KEYS: set<string> := {
    "id", "title", "description", "acceptance_criteria", "column_id", "order",
    "tags", "checklist", "due", "depends_on", "priority", "effort", "impact",
    "version", "deleted_at", "archived_at", "created_at", "updated_at",
    "created_by", "updated_by", "attachments", "gate_status", "badge"}

  const UNMODELED_CARD_KEYS: set<string> := {"priority", "checklist", "attachments"}

  /** Keys the metadata overlay may never touch. */
  const PROTECTED_CARD_KEYS: set<string> := CARD_FIELD_KEYS - UNMODELED_CARD_KEYS

  /** Input-only carriers: never projected, never preserved. */
  const NON_METADATA_INPUT_KEYS: set<string> := {"tier", "project_id"}

  function WithoutModeledCollisions(metadata: JsonObject): JsonObject {
    map k | k in metadata && k !in PROTECTED_CARD_KEYS :: metadata[k]
  }

  /** The top-level merge of a metadata patch: null removes a key, anything else sets it. */
  function Merged(metadata: JsonObject, patch: JsonObject): JsonObject {
    map k | k in metadata.Keys + patch.Keys && (k in patch ==> !patch[k].Null?)
      :: if k in patch then patch[k] else metadata[k]
  }
}
