/** The admission rules of the back end's two POST endpoints over abstract
    tables: `add_driver` geocodes the address and keeps only drivers inside
    a known region; `add_rider` refuses a second rider with the same name.
    A request is the decoded JSON body; a field that is `None` is a key the
    body lacks, which makes the handler's lookup raise `KeyError`. */
module Backend {

  import opened Wrappers
  import Text
  import ListOps
  import Regions
  import RiderForm
  import DriverForm

  /** The JSON body of a response: `{'error': ...}` or `{'message': ...}`. */
  datatype Body = Error(text: string) | Message(text: string)

  datatype Response = Response(status: int, body: Body)

  /** The `except` branch for a missing key: status 500 and the text of the
      `KeyError`, which is the key in single quotes. */
  function KeyErrorResponse(key: string): (resp: Response)
    ensures resp.status == 500 && resp.body.Error?
  {
    Response(500, Error("'" + key + "'"))
  }

  const InvalidAddress: Response := Response(400, Error("Invalid address!"))
  const DriverAdded: Response := Response(201, Message("Driver added successfully!"))
  const RiderExists: Response := Response(400, Error("Rider already exists"))
  const RiderAdded: Response := Response(201, Message("Rider added successfully!"))

  // ----------------------------------------------------------- drivers

  datatype DriverRequest = DriverRequest(
    name: Option<string>,
    email: Option<string>,
    address: Option<string>,
    drives: Option<seq<DriverForm.DriveEntry>>)

  /** A stored driver; `region` is the list `get_region` produced. */
  datatype DriverRecord = DriverRecord(
    name: string,
    email: string,
    region: seq<string>,
    address: string,
    drives: seq<DriverForm.DriveEntry>)

  /** The first key that `add_driver` reads and does not find. */
  function MissingDriverKey(req: DriverRequest): (k: Option<string>)
    ensures k.None? <==> req.name.Some? && req.email.Some? && req.address.Some? && req.drives.Some?
  {
    if req.name.None? then Some("name")
    else if req.email.None? then Some("email")
    else if req.address.None? then Some("address")
    else if req.drives.None? then Some("drives")
    else None
  }

  /** The request the driver form's payload decodes to. */
  function DriverRequestOf(p: DriverForm.DriverPayload): (req: DriverRequest)
    ensures MissingDriverKey(req).None?
    ensures req.address == Some(p.address) && req.drives == Some(p.drives)
  {
    DriverRequest(Some(p.name), Some(p.email), Some(p.address), Some(p.drives))
  }

  /** Python's `'Unknown' in region`: a substring test when `get_region`
      returned the string 'Unknown', a membership test on a list. */
  predicate UnknownIn(r: Regions.RegionResult): (b: bool)
    ensures r.Unknown? ==> b
    ensures r.Regions? && (forall n :: n in r.names ==> n in Regions.RegionOrder) ==> !b
  {
    match r
    case Unknown => Text.Contains("Unknown", "Unknown")
    case Regions(names) => "Unknown" in names
  }

  /** The check in `add_driver` rejects exactly the 'Unknown' result. */
  lemma UnknownInIff(address: string, c: Regions.Coord)
    ensures UnknownIn(Regions.Classify(address, c)) <==> Regions.Classify(address, c).Unknown?
  {
    var r := Regions.Classify(address, c);
    if r.Regions? && "Unknown" in r.names {
      Regions.ListedNamesKnown(address, c, "Unknown");
    }
  }

  /** Every stored driver lies in at least one region, listed in the fixed
      region order. */
  ghost predicate DriversValid(drivers: seq<DriverRecord>)
  {
    forall i :: 0 <= i < |drivers| ==>
      drivers[i].region != [] && ListOps.IsSubsequence(drivers[i].region, Regions.RegionOrder)
  }

  /** The driver table. */
  class DriverTable {
    var drivers: seq<DriverRecord>

    ghost predicate Valid()
      reads this
    {
      DriversValid(drivers)
    }

    constructor ()
      ensures Valid() && drivers == []
    {
      drivers := [];
    }

    /** `POST /api/drivers`; `validateAddress` is the geocoding oracle
        (None when the address cannot be geocoded). */
    method AddDriver(req: DriverRequest, validateAddress: string -> Option<Regions.Coord>) returns (resp: Response)
      requires Valid()
      modifies this
      ensures Valid()
      ensures MissingDriverKey(req).Some? ==>
        resp == KeyErrorResponse(MissingDriverKey(req).value) && drivers == old(drivers)
      ensures MissingDriverKey(req).None? && validateAddress(req.address.value).None? ==>
        resp == InvalidAddress && drivers == old(drivers)
      ensures MissingDriverKey(req).None? && validateAddress(req.address.value).Some? ==>
        var region := Regions.Classify(req.address.value, validateAddress(req.address.value).value);
        && (region.Unknown? ==> resp == InvalidAddress && drivers == old(drivers))
        && (region.Regions? ==>
              resp == DriverAdded
              && drivers == old(drivers) + [DriverRecord(req.name.value, req.email.value, region.names,
                                                         req.address.value, req.drives.value)])
    {
      var missing := MissingDriverKey(req);
      if missing.Some? {
        return KeyErrorResponse(missing.value);
      }
      var name, email, address, drives := req.name.value, req.email.value, req.address.value, req.drives.value;
      var location := validateAddress(address);
      if location.None? {
        return InvalidAddress;
      }
      var region := Regions.GetRegion(address, location.value.lat, location.value.lng);
      UnknownInIff(address, location.value);
      if UnknownIn(region) {
        return InvalidAddress;
      }
      Regions.ClassifyOrdered(address, location.value);
      drivers := drivers + [DriverRecord(name, email, region.names, address, drives)];
      resp := DriverAdded;
    }
  }

  // ------------------------------------------------------------ riders

  datatype RiderRequest = RiderRequest(
    name: Option<string>,
    email: Option<string>,
    availability: Option<map<string, seq<RiderForm.FormattedSlot>>>,
    divisions: Option<map<string, bool>>)

  datatype RiderRecord = RiderRecord(
    name: string,
    email: string,
    availability: map<string, seq<RiderForm.FormattedSlot>>,
    divisions: map<string, bool>)

  /** The first key that `add_rider` reads and does not find. */
  function MissingRiderKey(req: RiderRequest): (k: Option<string>)
    ensures k.None? <==> req.name.Some? && req.email.Some? && req.availability.Some? && req.divisions.Some?
  {
    if req.name.None? then Some("name")
    else if req.email.None? then Some("email")
    else if req.availability.None? then Some("availability")
    else if req.divisions.None? then Some("divisions")
    else None
  }

  /** The request the rider form's payload decodes to. */
  function RiderRequestOf(p: RiderForm.RiderPayload): (req: RiderRequest)
    ensures MissingRiderKey(req).None?
    ensures req.name == Some(p.name)
  {
    RiderRequest(Some(p.name), Some(p.email), Some(p.availability), Some(p.divisions))
  }

  /** A rider with this name is already stored. */
  predicate NameTaken(riders: seq<RiderRecord>, name: string)
  {
    exists i :: 0 <= i < |riders| && riders[i].name == name
  }

  /** `Rider.query.filter_by(name=name).first()`: the first stored rider
      with this name, taking the table in insertion order, or nothing. */
  function FirstWithName(riders: seq<RiderRecord>, name: string): (r: Option<RiderRecord>)
    ensures r.None? <==> !NameTaken(riders, name)
    ensures r.Some? ==> exists i :: 0 <= i < |riders| && riders[i] == r.value && r.value.name == name
                          && forall j :: 0 <= j < i ==> riders[j].name != name
  {
    if riders == [] then None
    else if riders[0].name == name then Some(riders[0])
    else
      var rest := FirstWithName(riders[1..], name);
      assert forall i :: 0 < i < |riders| ==> riders[i] == riders[1..][i - 1];
      if rest.Some? then
        ghost var i :| 0 <= i < |riders[1..]| && riders[1..][i] == rest.value && rest.value.name == name
          && forall j :: 0 <= j < i ==> riders[1..][j].name != name;
        assert riders[i + 1] == rest.value;
        rest
      else
        assert NameTaken(riders, name) ==> NameTaken(riders[1..], name);
        rest
  }

  /** No two stored riders share a name (the `unique=True` column). */
  predicate NamesUnique(riders: seq<RiderRecord>)
  {
    forall i, j :: 0 <= i < j < |riders| ==> riders[i].name != riders[j].name
  }

  /** Appending a rider whose name is not taken keeps the names unique;
      appending one whose name is taken breaks it. */
  lemma AppendNamesUnique(riders: seq<RiderRecord>, r: RiderRecord)
    requires NamesUnique(riders)
    ensures NamesUnique(riders + [r]) <==> !NameTaken(riders, r.name)
  {
    var grown := riders + [r];
    if NameTaken(riders, r.name) {
      var i :| 0 <= i < |riders| && riders[i].name == r.name;
      assert grown[i].name == grown[|riders|].name;
    }
  }

  /** The rider table. */
  class RiderTable {
    var riders: seq<RiderRecord>

    ghost predicate Valid()
      reads this
    {
      NamesUnique(riders)
    }

    constructor ()
      ensures Valid() && riders == []
    {
      riders := [];
    }

    /** `POST /api/riders`. */
    method AddRider(req: RiderRequest) returns (resp: Response)
      requires Valid()
      modifies this
      ensures Valid()
      ensures MissingRiderKey(req).Some? ==>
        resp == KeyErrorResponse(MissingRiderKey(req).value) && riders == old(riders)
      ensures MissingRiderKey(req).None? && NameTaken(old(riders), req.name.value) ==>
        resp == RiderExists && riders == old(riders)
      ensures MissingRiderKey(req).None? && !NameTaken(old(riders), req.name.value) ==>
        resp == RiderAdded
        && riders == old(riders) + [RiderRecord(req.name.value, req.email.value,
                                                req.availability.value, req.divisions.value)]
    {
      var missing := MissingRiderKey(req);
      if missing.Some? {
        return KeyErrorResponse(missing.value);
      }
      var name := req.name.value;
      var existingRider := FirstWithName(riders, name);
      if existingRider.Some? {
        return RiderExists;
      }
      var newRider := RiderRecord(name, req.email.value, req.availability.value, req.divisions.value);
      AppendNamesUnique(riders, newRider);
      riders := riders + [newRider];
      resp := RiderAdded;
    }
  }
}
