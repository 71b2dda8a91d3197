/** The map component: the list of peaks it shows, the one-shot first load,
    and the pending-creation marker. Each server call is given by its
    outcome; the handler applies that outcome to the list. */
module MapComponent {
  import opened Peaks
  import opened PeakStore
  import opened Panel

  /** The body of a bounding-box GET as the reload handler sees it. The
      status is never consulted: any response whose body decodes to an
      array is merged. `Unlisted` stands for a thrown fetch, an undecodable
      body, or a body that is not an array (whose `filter` throws). */
  datatype ListResponse = Listed(data: seq<Peak>) | Unlisted

  /** A clicked map position. */
  datatype LatLng = LatLng(lat: real, lng: real)

  class PeakMap {
    var peaks: seq<Peak>
    var initialized: bool

    constructor ()
      ensures peaks == [] && !initialized
    {
      peaks := [];
      initialized := false;
    }

    /** A reload merges the batch into the list; a failed one changes
        nothing. */
    method LoadPeaks(response: ListResponse)
      modifies this`peaks
      ensures peaks == if response.Listed? then Merge(old(peaks), response.data) else old(peaks)
      ensures UniqueIds(old(peaks)) && (response.Listed? ==> UniqueIds(response.data)) ==> UniqueIds(peaks)
    {
      if response.Listed? {
        if UniqueIds(peaks) && UniqueIds(response.data) {
          MergeUnique(peaks, response.data);
        }
        peaks := Merge(peaks, response.data);
      }
    }

    /** A pan or zoom always reloads, whatever `initialized` is. */
    method OnRefresh(response: ListResponse)
      modifies this`peaks
      ensures peaks == if response.Listed? then Merge(old(peaks), response.data) else old(peaks)
      ensures initialized == old(initialized)
    {
      LoadPeaks(response);
    }

    /** The first call issues the initial load and sets `initialized`; any
        later call issues none. The response only matters when a load is
        issued. */
    method Init(response: ListResponse) returns (loadIssued: bool)
      modifies this
      ensures initialized
      ensures loadIssued == !old(initialized)
      ensures peaks == if loadIssued && response.Listed? then Merge(old(peaks), response.data) else old(peaks)
    {
      loadIssued := !initialized;
      if loadIssued {
        LoadPeaks(response);
        initialized := true;
      }
    }

    /** A successful create appends the server's record; otherwise the list
        is unchanged. `newPeak` is the request body. */
    method OnCreate(newPeak: Peak, response: Response<Peak>)
      modifies this`peaks
      ensures peaks == if response.Ok? then old(peaks) + [response.body] else old(peaks)
      ensures |old(peaks)| <= |peaks| && peaks[..|old(peaks)|] == old(peaks)
    {
      if response.Ok? {
        peaks := peaks + [response.body];
      }
    }

    /** A successful update replaces the entries carrying the request's id
        by the server's record; otherwise the list is unchanged. (The code
        as written drops the record: see UpdatedAsWritten.) */
    method OnUpdate(peak: Peak, response: Response<Peak>)
      modifies this`peaks
      ensures peaks == if response.Ok? then Replace(old(peaks), peak.id, response.body) else old(peaks)
      ensures UniqueIds(old(peaks)) && response.Ok? && response.body.id == peak.id ==> UniqueIds(peaks)
    {
      if response.Ok? {
        if UniqueIds(peaks) && response.body.id == peak.id {
          ReplaceUnique(peaks, peak.id, response.body);
        }
        peaks := Replace(peaks, peak.id, response.body);
      }
    }

    /** A successful delete filters out every entry with the id; otherwise
        the list is unchanged. */
    method OnDelete(peakId: Option<int>, response: Response<()>)
      modifies this`peaks
      ensures peaks == if response.Ok? then Without(old(peaks), peakId) else old(peaks)
      ensures UniqueIds(old(peaks)) ==> UniqueIds(peaks)
    {
      if response.Ok? {
        if UniqueIds(peaks) {
          WithoutUnique(peaks, peakId);
        }
        peaks := Without(peaks, peakId);
      }
    }
  }

  /** The pending-creation marker: a position set by a click and cleared by
      the editor's cancel or create. */
  class LocationMarker {
    var position: Option<LatLng>

    constructor ()
      ensures position == None
    {
      position := None;
    }

    /** The peak handed to the editor while a marker is pending: no id, no
        name or altitude, the clicked coordinates. */
    function PendingPeak(): (r: Option<Peak>)
      reads this
      ensures r.Some? <==> position.Some?
      ensures r.Some? ==> r.value.id.None? && IsCreating(r.value)
      ensures r.Some? ==> r.value.name == "" && r.value.altitude == ""
      ensures r.Some? ==> r.value.lat == position.value.lat && r.value.lon == position.value.lng
    {
      match position
      case None => None
      case Some(at) => Some(Peak(None, "", "", at.lat, at.lng))
    }

    method Click(at: LatLng)
      modifies this
      ensures position == Some(at)
    {
      position := Some(at);
    }

    method OnCancel()
      modifies this
      ensures position == None
    {
      position := None;
    }

    /** Clears the pending position and forwards the editor's peak, once,
        to the map's create handler. */
    method OnMarkerCreate(newPeak: Peak, owner: PeakMap, response: Response<Peak>)
      modifies this, owner`peaks
      ensures position == None
      ensures owner.peaks == if response.Ok? then old(owner.peaks) + [response.body] else old(owner.peaks)
      ensures owner.initialized == old(owner.initialized)
    {
      position := None;
      owner.OnCreate(newPeak, response);
    }
  }

  /** The creation flow end to end: a click opens an editor in creation
      mode; Save sends the draft to create; the server's record is the one
      appended; the pending marker is gone. A later reload returning the
      same record adds nothing. */
  method CreationScenario()
  {
    var store := new PeakMap();
    var issued := store.Init(Listed([]));
    assert issued && store.peaks == [];

    var marker := new LocationMarker();
    marker.Click(LatLng(46.5775, 8.0053));
    var pending := marker.PendingPeak().value;
    var panel := new PeakPanel(pending, PendingMarker);
    assert panel.editing;

    panel.ChangeName("Eiger");
    panel.ChangeAltitude("3967");
    var calls := panel.Save();
    assert calls == [CallCreate(Peak(None, "Eiger", "3967", 46.5775, 8.0053))];

    var saved := Peak(Some(42), "Eiger", "3967", 46.5775, 8.0053);
    marker.OnMarkerCreate(calls[0].peak, store, Ok(saved));
    assert store.peaks == [saved];
    assert marker.position == None;

    issued := store.Init(Listed([saved]));
    assert !issued && store.peaks == [saved];
    store.OnRefresh(Listed([saved]));
    MergeIdempotent([], [saved]);
    assert store.peaks == [saved];
  }

  /** A stored peak whose id is falsy (a create reply carrying id 0) opens
      its editor in creation mode, but its marker passes no create
      callback: Save throws, sends nothing and stays in editing. */
  method FalsyIdScenario()
  {
    var store := new PeakMap();
    var reply := Peak(Some(0), "Eiger", "3967", 46.5775, 8.0053);
    store.OnCreate(Peak(None, "Eiger", "3967", 46.5775, 8.0053), Ok(reply));
    assert store.peaks == [reply];

    var panel := new PeakPanel(store.peaks[0], StoredMarker);
    assert panel.editing;
    var calls := panel.Save();
    assert calls == [] && panel.editing;
  }
}
