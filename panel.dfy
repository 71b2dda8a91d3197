/** The peak editor shown in a marker's popup: a per-marker state of
    `editing`, `name` and `altitude`, and one handler per button or field.
    The handlers' calls to the callbacks the popup was given are returned as
    values, in the order they are made. */
module Panel {
  import opened Peaks

  /** A call from the editor to one of the callbacks it was given. */
  datatype Callback =
    | CallCreate(peak: Peak)
    | CallUpdate(peak: Peak)
    | CallDelete(id: Option<int>)
    | CallCancel

  /** Who opened the editor. A stored peak's marker passes only the update
      and delete callbacks; the pending marker passes only create and
      cancel. Calling a callback that was not passed throws. */
  datatype Owner = StoredMarker | PendingMarker {
    predicate Supplies(c: Callback)
    {
      match c
      case CallCreate(_) => PendingMarker?
      case CallCancel => PendingMarker?
      case CallUpdate(_) => StoredMarker?
      case CallDelete(_) => StoredMarker?
    }
  }

  /** The editor is in creation mode when the peak's id is falsy: absent, or
      the number 0. */
  predicate IsCreating(peak: Peak)
  {
    peak.id.None? || peak.id == Some(0)
  }

  /** The record sent on Save: the peak with only its name and altitude
      replaced by the edited ones. */
  function Upserted(peak: Peak, name: string, altitude: string): (r: Peak)
    ensures r.name == name && r.altitude == altitude
    ensures r.id == peak.id && r.lat == peak.lat && r.lon == peak.lon
  {
    peak.(name := name, altitude := altitude)
  }

  /** Saving the fields the peak already has sends the peak unchanged. */
  lemma UpsertedUnchanged(peak: Peak)
    ensures Upserted(peak, peak.name, peak.altitude) == peak
  {
  }

  /** One editor popup. Its peak and owner are fixed for its lifetime. */
  class PeakPanel {
    const peak: Peak
    const owner: Owner
    const isCreating: bool
    var editing: bool
    var name: string
    var altitude: string

    /** A new editor starts editing exactly when the peak's id is falsy,
        with the peak's own name and altitude as the draft. */
    constructor (peak: Peak, owner: Owner)
      ensures this.peak == peak && this.owner == owner && isCreating == IsCreating(peak)
      ensures editing == isCreating
      ensures name == peak.name && altitude == peak.altitude
    {
      this.peak := peak;
      this.owner := owner;
      isCreating := IsCreating(peak);
      editing := IsCreating(peak);
      name := peak.name;
      altitude := peak.altitude;
    }

    method ChangeName(value: string)
      modifies this`name
      ensures name == value
    {
      name := value;
    }

    method ChangeAltitude(value: string)
      modifies this`altitude
      ensures altitude == value
    {
      altitude := value;
    }

    /** Cancel (shown while editing) leaves editing and then, in creation
        mode only, asks the owner to drop the pending marker; that call
        throws when the owner passed no cancel callback. The draft is kept. */
    method Cancel() returns (calls: seq<Callback>)
      requires editing
      modifies this`editing
      ensures !editing
      ensures calls == if isCreating && owner.Supplies(CallCancel) then [CallCancel] else []
    {
      editing := false;
      if isCreating && owner.Supplies(CallCancel) {
        calls := [CallCancel];
      } else {
        calls := [];
      }
    }

    /** Save (shown while editing) sends the upserted peak to create in
        creation mode and to update otherwise, then leaves editing. When the
        owner passed no such callback the call throws before editing is
        left, and nothing is sent. */
    method Save() returns (calls: seq<Callback>)
      requires editing
      modifies this`editing
      ensures var sent := if isCreating then CallCreate(Upserted(peak, name, altitude))
                          else CallUpdate(Upserted(peak, name, altitude));
              if owner.Supplies(sent) then calls == [sent] && !editing
              else calls == [] && editing
    {
      var upserted := Upserted(peak, name, altitude);
      var sent := if isCreating then CallCreate(upserted) else CallUpdate(upserted);
      if owner.Supplies(sent) {
        calls := [sent];
        editing := false;
      } else {
        calls := [];
      }
    }

    /** Update (shown while not editing) enters editing with the draft as
        it was left. */
    method Update()
      requires !editing
      modifies this`editing
      ensures editing
    {
      editing := true;
    }

    /** Delete (shown while not editing) asks the owner to delete the
        peak's id, if it passed a delete callback, and changes nothing
        locally. */
    method Delete() returns (calls: seq<Callback>)
      requires !editing
      ensures calls == if owner.Supplies(CallDelete(peak.id)) then [CallDelete(peak.id)] else []
    {
      if owner.Supplies(CallDelete(peak.id)) {
        calls := [CallDelete(peak.id)];
      } else {
        calls := [];
      }
    }
  }
}
