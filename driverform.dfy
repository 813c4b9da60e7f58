/** The driver form of the front end: the list of offered drives, edited in
    place, and the submit handler that turns it into the posted payload. */
module DriverForm {

  import opened Wrappers
  import ListOps
  import Calendar

  type Moment = Calendar.Moment

  /** One offered drive; each picker value is null until chosen. */
  datatype Drive = Drive(date: Option<Moment>, start: Option<Moment>, end: Option<Moment>)

  /** The drive `handleAddDrive` appends: `{ date: null, start: null, end: null }`. */
  const EmptyDrive: Drive := Drive(None, None, None)

  /** The property a picker of a drive writes. */
  datatype DriveField = Date | Start | End

  /** The one element of a posted drive's list. */
  datatype DriveOffer = DriveOffer(start: Option<string>, end: Option<string>, capacity: Option<string>)

  /** A posted drive: an object with the single key `key`, whose value is
      the list `offers`. */
  datatype DriveEntry = DriveEntry(key: string, offers: seq<DriveOffer>)

  /** The body of `POST /api/drivers`. */
  datatype DriverPayload = DriverPayload(name: string, email: string, address: string, drives: seq<DriveEntry>)

  /** A JavaScript computed key `[formattedDate]` with a null value. */
  const NullKey: string := "null"

  /** The list `handleDriveChange(index, field, value)` leaves: only
      property `field` of drive `index` now holds `value`. */
  function SetDriveField(drives: seq<Drive>, index: nat, field: DriveField, value: Option<Moment>): (r: seq<Drive>)
    requires index < |drives|
    ensures |r| == |drives|
    ensures r[index].date == (if field == Date then value else drives[index].date)
    ensures r[index].start == (if field == Start then value else drives[index].start)
    ensures r[index].end == (if field == End then value else drives[index].end)
    ensures forall j :: 0 <= j < |drives| && j != index ==> r[j] == drives[j]
  {
    var d := drives[index];
    drives[index := match field
                    case Date => d.(date := value)
                    case Start => d.(start := value)
                    case End => d.(end := value)]
  }

  /** Writing back a value a drive already holds changes nothing. */
  lemma SetDriveFieldUnchanged(drives: seq<Drive>, index: nat, field: DriveField)
    requires index < |drives|
    ensures var d := drives[index];
      SetDriveField(drives, index, field, match field case Date => d.date case Start => d.start case End => d.end)
        == drives
  {
  }

  /** One drive as posted: keyed by its formatted date (`fmtDate` stands
      for `format('dddd, MM/DD/YY')`, `fmtTime` for `format('HH:mm A')`),
      with a one-element list holding its times and the car capacity, null
      when the capacity field is empty. */
  function FormatDrive(drive: Drive, capacity: string, fmtDate: Moment -> string, fmtTime: Moment -> string): (e: DriveEntry)
    ensures |e.offers| == 1
    ensures drive.date.None? ==> e.key == NullKey
    ensures drive.date.Some? ==> e.key == fmtDate(drive.date.value)
    ensures e.offers[0].capacity.None? <==> capacity == ""
    ensures e.offers[0].capacity.Some? ==> e.offers[0].capacity.value == capacity
    ensures e.offers[0].start.None? <==> drive.start.None?
    ensures e.offers[0].end.None? <==> drive.end.None?
    ensures drive.start.Some? ==> e.offers[0].start == Some(fmtTime(drive.start.value))
    ensures drive.end.Some? ==> e.offers[0].end == Some(fmtTime(drive.end.value))
  {
    var formattedDate := if drive.date.Some? then Some(fmtDate(drive.date.value)) else None;
    DriveEntry(
      if formattedDate.Some? then formattedDate.value else NullKey,
      [DriveOffer(
         if drive.start.Some? then Some(fmtTime(drive.start.value)) else None,
         if drive.end.Some? then Some(fmtTime(drive.end.value)) else None,
         if capacity != "" then Some(capacity) else None)])
  }

  /** `driveDetails.map(...)`: one posted entry per drive, in order. */
  function FormatDrives(drives: seq<Drive>, capacity: string, fmtDate: Moment -> string, fmtTime: Moment -> string): (r: seq<DriveEntry>)
    ensures |r| == |drives|
    ensures forall i :: 0 <= i < |drives| ==> r[i] == FormatDrive(drives[i], capacity, fmtDate, fmtTime)
  {
    seq(|drives|, i requires 0 <= i < |drives| => FormatDrive(drives[i], capacity, fmtDate, fmtTime))
  }

  /** Every posted entry carries the same capacity, the form-wide one. */
  lemma FormattedDrivesShareCapacity(drives: seq<Drive>, capacity: string, fmtDate: Moment -> string, fmtTime: Moment -> string, i: nat, j: nat)
    requires i < |drives| && j < |drives|
    ensures var r := FormatDrives(drives, capacity, fmtDate, fmtTime);
      |r[i].offers| == |r[j].offers| == 1 && r[i].offers[0].capacity == r[j].offers[0].capacity
  {
  }

  /** The state of the driver form. */
  class Drivers {
    var name: string
    var email: string
    var address: string
    var capacity: string
    var driveDetails: seq<Drive>

    /** Mounting the form: every text field empty and no drives. */
    constructor ()
      ensures name == "" && email == "" && address == "" && capacity == ""
      ensures driveDetails == []
    {
      name, email, address, capacity := "", "", "", "";
      driveDetails := [];
    }

    method HandleAddDrive()
      modifies this
      ensures driveDetails == old(driveDetails) + [EmptyDrive]
      ensures name == old(name) && email == old(email) && address == old(address) && capacity == old(capacity)
    {
      driveDetails := driveDetails + [EmptyDrive];
    }

    method HandleDeleteDrive(index: int)
      modifies this
      ensures 0 <= index < |old(driveDetails)| ==>
        driveDetails == old(driveDetails)[..index] + old(driveDetails)[index + 1..]
      ensures !(0 <= index < |old(driveDetails)|) ==> driveDetails == old(driveDetails)
      ensures name == old(name) && email == old(email) && address == old(address) && capacity == old(capacity)
    {
      driveDetails := ListOps.RemoveAt(driveDetails, index);
    }

    /** A picker of drive `index` changed; the drive is overwritten in place. */
    method HandleDriveChange(index: nat, field: DriveField, value: Option<Moment>)
      requires index < |driveDetails|
      modifies this
      ensures driveDetails == SetDriveField(old(driveDetails), index, field, value)
      ensures name == old(name) && email == old(email) && address == old(address) && capacity == old(capacity)
    {
      var updatedDrives := driveDetails;
      var drive := updatedDrives[index];
      match field {
        case Date => drive := drive.(date := value);
        case Start => drive := drive.(start := value);
        case End => drive := drive.(end := value);
      }
      updatedDrives := updatedDrives[index := drive];
      driveDetails := updatedDrives;
    }

    /** Submitting: the form's three text fields and every drive formatted;
        the form does not check any field first. */
    method HandleSubmit(fmtDate: Moment -> string, fmtTime: Moment -> string) returns (payload: DriverPayload)
      ensures payload.name == name && payload.email == email && payload.address == address
      ensures |payload.drives| == |driveDetails|
      ensures forall i :: 0 <= i < |driveDetails| ==>
        payload.drives[i] == FormatDrive(driveDetails[i], capacity, fmtDate, fmtTime)
    {
      payload := DriverPayload(name, email, address, FormatDrives(driveDetails, capacity, fmtDate, fmtTime));
    }
  }
}
