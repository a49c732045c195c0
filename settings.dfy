/** The instruction settings (lib/services/settings.ts): two rows of the
    `settings` table, each read with a built-in fallback and written by
    upsert. The built-in instruction texts are parameters here. */
module Settings {
  import opened Options
  import opened RecordStore

  const SystemInstructionKey := "system_instruction"
  const ImageAnalysisInstructionKey := "image_analysis_instruction"
  const UpdateSystemInstructionPrefix := "Failed to update system instruction: "
  const UpdateImageAnalysisInstructionPrefix := "Failed to update image analysis instruction: "

  /** How a call ends: with a value, or by throwing an `Error` with a message. */
  datatype Completion<T> = Returned(value: T) | Thrown(message: string)

  /** The value a getter returns for `key`: the stored value, or `fallback`
      when the read fails or finds no row. */
  function InstructionValue(d: Db, key: string, fallback: string, reply: Reply): (v: string)
    ensures reply.Ok? && key in d.settings ==> v == d.settings[key]
    ensures reply.Err? || key !in d.settings ==> v == fallback
  {
    match SelectSetting(d, key, reply)
    case Failed(_) => fallback
    case Found(value) => value
  }

  /** What an update does: the upsert, then `true` or a thrown error. */
  function UpdateOutcome(d: Db, key: string, prefix: string, value: string, reply: Reply): (r: (Db, Completion<bool>))
    ensures reply.Ok? ==> r.0 == d.(settings := d.settings[key := value]) && r.1 == Returned(true)
    ensures reply.Err? ==> r.0 == d && r.1 == Thrown(prefix + reply.message)
  {
    var s := UpsertStep(d, key, value, reply);
    (s.db, if s.error.Some? then Thrown(prefix + s.error.value) else Returned(true))
  }

  /** After an update that went through, a read that goes through returns
      the value written, whatever the fallback. */
  lemma GetAfterUpdate(d: Db, key: string, prefix: string, value: string, fallback: string)
    ensures InstructionValue(UpdateOutcome(d, key, prefix, value, Ok).0, key, fallback, Ok) == value
  {
  }

  /** Writing one key leaves what the other key reads unchanged, on every
      answer of either call. */
  lemma KeysIndependent(d: Db, value: string, fallback: string, update: Reply, read: Reply)
    ensures var s := UpdateOutcome(d, SystemInstructionKey, UpdateSystemInstructionPrefix, value, update).0;
      InstructionValue(s, ImageAnalysisInstructionKey, fallback, read)
        == InstructionValue(d, ImageAnalysisInstructionKey, fallback, read)
    ensures var s := UpdateOutcome(d, ImageAnalysisInstructionKey, UpdateImageAnalysisInstructionPrefix, value, update).0;
      InstructionValue(s, SystemInstructionKey, fallback, read)
        == InstructionValue(d, SystemInstructionKey, fallback, read)
  {
    assert SystemInstructionKey[0] != ImageAnalysisInstructionKey[0];
  }

  /** `getSystemInstruction()`. */
  method GetSystemInstruction(db: Store, fallback: string, reply: Reply) returns (v: string)
    ensures v == InstructionValue(db.State(), SystemInstructionKey, fallback, reply)
  {
    var row := db.ReadSetting(SystemInstructionKey, reply);
    if row.Failed? {
      return fallback;
    }
    v := row.value;
  }

  /** `updateSystemInstruction(value)`. */
  method UpdateSystemInstruction(db: Store, value: string, reply: Reply) returns (c: Completion<bool>)
    modifies db
    ensures (db.State(), c) == UpdateOutcome(old(db.State()), SystemInstructionKey, UpdateSystemInstructionPrefix, value, reply)
  {
    var error := db.Upsert(SystemInstructionKey, value, reply);
    if error.Some? {
      return Thrown(UpdateSystemInstructionPrefix + error.value);
    }
    c := Returned(true);
  }

  /** `getImageAnalysisInstruction()`. */
  method GetImageAnalysisInstruction(db: Store, fallback: string, reply: Reply) returns (v: string)
    ensures v == InstructionValue(db.State(), ImageAnalysisInstructionKey, fallback, reply)
  {
    var row := db.ReadSetting(ImageAnalysisInstructionKey, reply);
    if row.Failed? {
      return fallback;
    }
    v := row.value;
  }

  /** `updateImageAnalysisInstruction(value)`. */
  method UpdateImageAnalysisInstruction(db: Store, value: string, reply: Reply) returns (c: Completion<bool>)
    modifies db
    ensures (db.State(), c)
      == UpdateOutcome(old(db.State()), ImageAnalysisInstructionKey, UpdateImageAnalysisInstructionPrefix, value, reply)
  {
    var error := db.Upsert(ImageAnalysisInstructionKey, value, reply);
    if error.Some? {
      return Thrown(UpdateImageAnalysisInstructionPrefix + error.value);
    }
    c := Returned(true);
  }
}
