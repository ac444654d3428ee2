/**
 * Change-tracking metadata embedded in every aggregate: a version, two timestamps,
 * a soft-delete flag and an append-only list of change markers.
 */
module Domain {

  /** Timestamps are opaque instants; the model never reads a clock, callers pass the instant in. */
  type Time = int

  /** Go's `uint32`. */
  type Uint32 = x: int | 0 <= x < 0x1_0000_0000

  /** `Event` is Go's empty interface; the only marker the code ever registers is the empty struct. */
  datatype Event = EmptyMarker

  class Meta {
    var version: Uint32
    var createdAt: Time
    var updatedAt: Time
    var disabled: bool
    var changes: seq<Event>

    /** NewMeta, with the reading of `time.Now()` passed in as `now`. */
    constructor (now: Time)
      ensures version == 0 && !disabled
      ensures createdAt == now && updatedAt == now
      ensures changes == [] && !HasChanges()
    {
      version, createdAt, updatedAt, disabled := 0, now, now, false;
      changes := [];
    }

    /** Sets the four metadata fields through the setters; the change list is outside the frame. */
    method HydrateMeta(version: Uint32, createdAt: Time, updatedAt: Time, disabled: bool)
      modifies this`version, this`createdAt, this`updatedAt, this`disabled
      ensures GetVersion() == version && GetCreatedAt() == createdAt
      ensures GetUpdatedAt() == updatedAt && GetDisabled() == disabled
      ensures HasChanges() == old(HasChanges())
    {
      SetCreatedAt(createdAt);
      SetUpdatedAt(updatedAt);
      SetVersion(version);
      SetDisabled(disabled);
    }

    /** Appends the given markers, in order, and touches nothing else. */
    method RegisterChanges(events: seq<Event>)
      modifies this`changes
      ensures changes == old(changes) + events
      ensures |changes| == |old(changes)| + |events|
      ensures HasChanges() <==> old(HasChanges()) || events != []
    {
      changes := changes + events;
    }

    method ClearChanges()
      modifies this`changes
      ensures changes == [] && !HasChanges()
    {
      changes := [];
    }

    predicate HasChanges()
      reads this`changes
    {
      |changes| > 0
    }

    function GetVersion(): Uint32 reads this`version { version }

    function GetCreatedAt(): Time reads this`createdAt { createdAt }

    function GetUpdatedAt(): Time reads this`updatedAt { updatedAt }

    function GetDisabled(): bool reads this`disabled { disabled }

    method SetVersion(version: Uint32)
      modifies this`version
      ensures GetVersion() == version
    {
      this.version := version;
    }

    method SetCreatedAt(t: Time)
      modifies this`createdAt
      ensures GetCreatedAt() == t
    {
      createdAt := t;
    }

    method SetUpdatedAt(t: Time)
      modifies this`updatedAt
      ensures GetUpdatedAt() == t
    {
      updatedAt := t;
    }

    method SetDisabled(disabled: bool)
      modifies this`disabled
      ensures GetDisabled() == disabled
    {
      this.disabled := disabled;
    }
  }
}
