/** The rider form of the front end: the per-day availability windows, the
    division checkboxes, the member roster and the submit handler that turns
    the form state into the payload posted to the back end. */
module RiderForm {

  import opened Wrappers
  import Text
  import ListOps
  import Calendar

  type Moment = Calendar.Moment

  /** One availability window; each end is null until a time is picked. */
  datatype Slot = Slot(start: Option<Moment>, end: Option<Moment>)

  /** The window `addTimeSlot` appends: `{ start: null, end: null }`. */
  const EmptySlot: Slot := Slot(None, None)

  /** The property a time picker writes (`'start'` or `'end'`). */
  datatype SlotField = Start | End

  /** Lower-cased day label to the windows entered for that day. */
  type Availability = map<string, seq<Slot>>

  /** A window as it is posted: formatted times and an unassigned driver. */
  datatype FormattedSlot = FormattedSlot(start: Option<string>, end: Option<string>, driver: Option<string>)

  /** The body of `POST /api/riders`. */
  datatype RiderPayload = RiderPayload(
    name: string,
    email: string,
    availability: map<string, seq<FormattedSlot>>,
    divisions: map<string, bool>)

  /** A row of the member sheet; a missing column reads as `undefined`. */
  datatype SheetRow = SheetRow(firstName: Option<string>, lastName: Option<string>, uniqname: Option<string>)

  /** An entry of the name picker. */
  datatype RosterEntry = RosterEntry(name: string, email: string)

  /** UMich addresses are the uniqname followed by this suffix. */
  const MailDomain: string := "@umich.edu"

  /** The six pickup divisions, each a checkbox of the form. */
  const DivisionNames: seq<string> := ["kerrytown", "central", "hill", "lower_bp", "upper_bp", "pierpont"]

  /** The checkbox state the form starts with: every division unchecked. */
  const InitialDivisions: map<string, bool> := map n | n in DivisionNames :: false

  // ---------------------------------------------------------------- week

  /** The initial `availability`: the seven day labels of next week, each
      lower-cased, are folded into an object that maps each to `[]`. */
  method InitialAvailability(today: int, dayLabel: int -> string) returns (acc: Availability)
    ensures acc.Keys == set key | key in Calendar.WeekKeys(today, dayLabel)
    ensures forall day :: day in acc ==> acc[day] == []
    ensures ListOps.Distinct(Calendar.WeekKeys(today, dayLabel)) ==> |acc| == 7
  {
    var start := Calendar.StartOfNextWeek(today);
    var daysOfWeek := seq(7, i => dayLabel(start + i));
    ghost var keys := Calendar.WeekKeys(today, dayLabel);
    acc := map[];
    var i := 0;
    while i < |daysOfWeek|
      invariant 0 <= i <= 7
      invariant acc.Keys == set key | key in keys[..i]
      invariant forall day :: day in acc ==> acc[day] == []
    {
      assert keys[..i + 1] == keys[..i] + [Text.Lower(daysOfWeek[i])];
      acc := acc[Text.Lower(daysOfWeek[i]) := []];
      i := i + 1;
    }
    assert keys[..7] == keys;
    if ListOps.Distinct(keys) {
      ListOps.DistinctCardinality(keys);
      assert acc.Keys == set key | key in keys;
    }
  }

  // ------------------------------------------------------- slot editing

  /** `addTimeSlot(day)`: one empty window appended to that day. */
  function AppendSlot(av: Availability, day: string): (r: Availability)
    requires day in av
    ensures r.Keys == av.Keys
    ensures |r[day]| == |av[day]| + 1
    ensures r[day][..|av[day]|] == av[day] && r[day][|av[day]|] == EmptySlot
    ensures forall d :: d in av && d != day ==> r[d] == av[d]
  {
    av[day := av[day] + [EmptySlot]]
  }

  /** `deleteTimeSlot(day, index)`: the window at `index` is filtered out
      of that day's list; an index out of range changes nothing. */
  function DropSlot(av: Availability, day: string, index: int): (r: Availability)
    requires day in av
    ensures r.Keys == av.Keys
    ensures 0 <= index < |av[day]| ==> r[day] == av[day][..index] + av[day][index + 1..]
    ensures !(0 <= index < |av[day]|) ==> r == av
    ensures forall d :: d in av && d != day ==> r[d] == av[d]
  {
    av[day := ListOps.RemoveAt(av[day], index)]
  }

  /** One property of a window replaced. */
  function WithField(slot: Slot, field: SlotField, value: Option<Moment>): Slot
  {
    match field
    case Start => slot.(start := value)
    case End => slot.(end := value)
  }

  /** The state `handleTimeChange(day, index, type, value)` leaves: only
      property `field` of window `index` of `day` now holds `value`. */
  function SetSlotField(av: Availability, day: string, index: nat, field: SlotField, value: Option<Moment>): (r: Availability)
    requires day in av && index < |av[day]|
    ensures r.Keys == av.Keys
    ensures |r[day]| == |av[day]|
    ensures field == Start ==> r[day][index].start == value && r[day][index].end == av[day][index].end
    ensures field == End ==> r[day][index].end == value && r[day][index].start == av[day][index].start
    ensures forall j :: 0 <= j < |av[day]| && j != index ==> r[day][j] == av[day][j]
    ensures forall d :: d in av && d != day ==> r[d] == av[d]
  {
    av[day := av[day][index := WithField(av[day][index], field, value)]]
  }

  /** Deleting the window just added gives the previous state back. */
  lemma DropUndoesAppend(av: Availability, day: string)
    requires day in av
    ensures DropSlot(AppendSlot(av, day), day, |av[day]|) == av
  {
    ListOps.RemoveAtAfterAppend(av[day], EmptySlot);
  }

  /** A later change of the same property overrides an earlier one. */
  lemma SetSlotFieldLastWins(av: Availability, day: string, index: nat, field: SlotField, v: Option<Moment>, w: Option<Moment>)
    requires day in av && index < |av[day]|
    ensures SetSlotField(SetSlotField(av, day, index, field, v), day, index, field, w)
         == SetSlotField(av, day, index, field, w)
  {
    var once := SetSlotField(av, day, index, field, v);
    var twice := SetSlotField(once, day, index, field, w);
    var direct := SetSlotField(av, day, index, field, w);
    assert twice[day] == direct[day];
    assert twice.Keys == direct.Keys;
  }

  /** Changing the start and the end of a window can happen in either order. */
  lemma SetSlotFieldCommutes(av: Availability, day: string, index: nat, s: Option<Moment>, e: Option<Moment>)
    requires day in av && index < |av[day]|
    ensures SetSlotField(SetSlotField(av, day, index, Start, s), day, index, End, e)
         == SetSlotField(SetSlotField(av, day, index, End, e), day, index, Start, s)
  {
    var startFirst := SetSlotField(SetSlotField(av, day, index, Start, s), day, index, End, e);
    var endFirst := SetSlotField(SetSlotField(av, day, index, End, e), day, index, Start, s);
    assert startFirst[day][index] == Slot(s, e) == endFirst[day][index];
    assert startFirst[day] == endFirst[day];
    assert startFirst.Keys == endFirst.Keys;
  }

  // ---------------------------------------------------------- divisions

  /** `handleDivisionChange`: the checkbox `name` now holds `checked`;
      every other checkbox keeps its value. */
  function ToggleDivision(divisions: map<string, bool>, name: string, checked: bool): (r: map<string, bool>)
    ensures r.Keys == divisions.Keys + {name}
    ensures r[name] == checked
    ensures forall n :: n in divisions && n != name ==> r[n] == divisions[n]
  {
    divisions[name := checked]
  }

  /** Toggling a checkbox and toggling it back restores the divisions. */
  lemma ToggleDivisionBack(divisions: map<string, bool>, name: string)
    requires name in divisions
    ensures ToggleDivision(ToggleDivision(divisions, name, !divisions[name]), name, divisions[name]) == divisions
  {
  }

  /** Toggling one of the six divisions keeps exactly the six keys. */
  lemma ToggleKeepsDivisionKeys(divisions: map<string, bool>, name: string, checked: bool)
    requires divisions.Keys == set n | n in DivisionNames
    requires name in DivisionNames
    ensures ToggleDivision(divisions, name, checked).Keys == set n | n in DivisionNames
  {
  }

  // ------------------------------------------------------------- roster

  /** A value interpolated into a template literal. */
  function Interpolated(s: Option<string>): string
  {
    match s
    case Some(v) => v
    case None => "undefined"
  }

  /** JavaScript truthiness of a string that may be missing. */
  predicate Truthy(s: Option<string>)
  {
    s.Some? && s.value != ""
  }

  /** One sheet row as a roster entry: "First Last" and, when the row has a
      uniqname, the UMich address built from it. */
  function RosterEntryOf(row: SheetRow): (e: RosterEntry)
    ensures e.email == "" <==> !Truthy(row.uniqname)
  {
    RosterEntry(
      Interpolated(row.firstName) + " " + Interpolated(row.lastName),
      if Truthy(row.uniqname) then row.uniqname.value + MailDomain else "")
  }

  /** A non-empty roster e-mail is the row's uniqname followed by the
      UMich domain, so the uniqname can be read back from the address. */
  lemma RosterEmailRoundTrip(row: SheetRow)
    ensures var e := RosterEntryOf(row).email;
      e != "" ==>
        |e| > |MailDomain| && e[|e| - |MailDomain|..] == MailDomain
        && e[..|e| - |MailDomain|] == row.uniqname.value
  {
  }

  /** The roster mapping of the sheet fetch: one entry per row, in order. */
  function RosterOf(rows: seq<SheetRow>): (r: seq<RosterEntry>)
    ensures |r| == |rows|
    ensures forall i :: 0 <= i < |rows| ==> r[i] == RosterEntryOf(rows[i])
  {
    seq(|rows|, i requires 0 <= i < |rows| => RosterEntryOf(rows[i]))
  }

  /** `data.find(item => item.name === newValue)`: the first entry whose
      name is `name`, or nothing when there is none (or `name` is null). */
  function FindByName(data: seq<RosterEntry>, name: Option<string>): (r: Option<RosterEntry>)
    ensures r.None? <==> forall e :: e in data ==> Some(e.name) != name
    ensures r.Some? ==> exists i :: 0 <= i < |data| && data[i] == r.value && Some(r.value.name) == name
                          && forall j :: 0 <= j < i ==> Some(data[j].name) != name
  {
    if data == [] then None
    else if Some(data[0].name) == name then Some(data[0])
    else
      var rest := FindByName(data[1..], name);
      assert forall e :: e in data ==> e == data[0] || e in data[1..];
      if rest.Some? then
        ghost var i :| 0 <= i < |data[1..]| && data[1..][i] == rest.value && Some(rest.value.name) == name
          && forall j :: 0 <= j < i ==> Some(data[1..][j].name) != name;
        assert data[i + 1] == rest.value;
        assert forall j :: 0 <= j < i + 1 ==> Some(data[j].name) != name by {
          forall j | 0 <= j < i + 1 ensures Some(data[j].name) != name {
            if j > 0 { assert data[j] == data[1..][j - 1]; }
          }
        }
        rest
      else rest
  }

  // ------------------------------------------------------------- submit

  /** A window as posted: each picked time formatted with `fmt` (dayjs's
      `format('HH:mm A')`), an unpicked one null, and no driver yet. */
  function FormatSlot(slot: Slot, fmt: Moment -> string): (r: FormattedSlot)
    ensures r.driver.None?
    ensures r.start.None? <==> slot.start.None?
    ensures r.end.None? <==> slot.end.None?
    ensures slot.start.Some? ==> r.start == Some(fmt(slot.start.value))
    ensures slot.end.Some? ==> r.end == Some(fmt(slot.end.value))
  {
    FormattedSlot(
      if slot.start.Some? then Some(fmt(slot.start.value)) else None,
      if slot.end.Some? then Some(fmt(slot.end.value)) else None,
      None)
  }

  /** `availability[day].map(...)`: every window of one day formatted. */
  function FormatSlots(slots: seq<Slot>, fmt: Moment -> string): (r: seq<FormattedSlot>)
    ensures |r| == |slots|
    ensures forall j :: 0 <= j < |slots| ==> r[j] == FormatSlot(slots[j], fmt)
  {
    seq(|slots|, j requires 0 <= j < |slots| => FormatSlot(slots[j], fmt))
  }

  /** `out` is `av` with every window formatted: the same days, the same
      number of windows per day, window by window. */
  ghost predicate FormattedFrom(out: map<string, seq<FormattedSlot>>, av: Availability, fmt: Moment -> string)
  {
    && out.Keys == av.Keys
    && forall day :: day in av ==>
         |out[day]| == |av[day]| && forall j :: 0 <= j < |av[day]| ==> out[day][j] == FormatSlot(av[day][j], fmt)
  }

  /** The `forEach` over the days of `availability` that fills
      `formattedAvailability` one day at a time. */
  method FormatAvailability(av: Availability, fmt: Moment -> string) returns (out: map<string, seq<FormattedSlot>>)
    ensures FormattedFrom(out, av, fmt)
  {
    out := map[];
    var pending := av.Keys;
    while pending != {}
      invariant pending <= av.Keys
      invariant out.Keys == av.Keys - pending
      invariant forall day :: day in out ==> out[day] == FormatSlots(av[day], fmt)
      decreases pending
    {
      var day :| day in pending;
      out := out[day := FormatSlots(av[day], fmt)];
      pending := pending - {day};
    }
  }

  /** What the formatted availability promises to the back end: the same
      days with the same number of windows, no driver assigned anywhere,
      and a null time wherever none was picked. */
  lemma FormattedShape(out: map<string, seq<FormattedSlot>>, av: Availability, fmt: Moment -> string, day: string, j: nat)
    requires FormattedFrom(out, av, fmt)
    requires day in av && j < |av[day]|
    ensures day in out && |out[day]| == |av[day]|
    ensures out[day][j].driver == None
    ensures out[day][j].start == None <==> av[day][j].start == None
    ensures out[day][j].end == None <==> av[day][j].end == None
  {
  }

  // --------------------------------------------------------- component

  /** The state of the rider form. */
  class Riders {
    var data: seq<RosterEntry>
    var selectedName: Option<string>
    var email: string
    var availability: Availability
    var divisions: map<string, bool>

    /** Mounting the form: an empty roster and name, next week's seven
        empty days, every division unchecked. */
    constructor (today: int, dayLabel: int -> string)
      ensures data == [] && selectedName == Some("") && email == ""
      ensures availability.Keys == set key | key in Calendar.WeekKeys(today, dayLabel)
      ensures forall day :: day in availability ==> availability[day] == []
      ensures ListOps.Distinct(Calendar.WeekKeys(today, dayLabel)) ==> |availability| == 7
      ensures divisions == InitialDivisions
    {
      var week := InitialAvailability(today, dayLabel);
      data := [];
      selectedName := Some("");
      email := "";
      availability := week;
      divisions := InitialDivisions;
    }

    /** The sheet fetch resolved with `rows`. */
    method LoadRoster(rows: seq<SheetRow>)
      modifies this
      ensures data == RosterOf(rows)
      ensures selectedName == old(selectedName) && email == old(email)
      ensures availability == old(availability) && divisions == old(divisions)
    {
      data := RosterOf(rows);
    }

    /** The name picker changed to `newValue`: the e-mail field takes the
        chosen member's address, or becomes empty when none matches. */
    method SelectName(newValue: Option<string>)
      modifies this
      ensures selectedName == newValue
      ensures email == match FindByName(data, newValue) case Some(e) => e.email case None => ""
      ensures data == old(data) && availability == old(availability) && divisions == old(divisions)
    {
      var selected := FindByName(data, newValue);
      selectedName := newValue;
      email := if selected.Some? then selected.value.email else "";
    }

    method HandleDivisionChange(name: string, checked: bool)
      modifies this
      ensures divisions == ToggleDivision(old(divisions), name, checked)
      ensures data == old(data) && selectedName == old(selectedName) && email == old(email)
      ensures availability == old(availability)
    {
      divisions := ToggleDivision(divisions, name, checked);
    }

    method AddTimeSlot(day: string)
      requires day in availability
      modifies this
      ensures availability == AppendSlot(old(availability), day)
      ensures data == old(data) && selectedName == old(selectedName) && email == old(email)
      ensures divisions == old(divisions)
    {
      availability := AppendSlot(availability, day);
    }

    method DeleteTimeSlot(day: string, index: int)
      requires day in availability
      modifies this
      ensures availability == DropSlot(old(availability), day, index)
      ensures data == old(data) && selectedName == old(selectedName) && email == old(email)
      ensures divisions == old(divisions)
    {
      availability := DropSlot(availability, day, index);
    }

    /** A time picker changed: property `field` of window `index` of `day`
        is overwritten in place. */
    method HandleTimeChange(day: string, index: nat, field: SlotField, value: Option<Moment>)
      requires day in availability && index < |availability[day]|
      modifies this
      ensures availability == SetSlotField(old(availability), day, index, field, value)
      ensures data == old(data) && selectedName == old(selectedName) && email == old(email)
      ensures divisions == old(divisions)
    {
      var slots := availability[day];
      var slot := slots[index];
      match field {
        case Start => slot := slot.(start := value);
        case End => slot := slot.(end := value);
      }
      slots := slots[index := slot];
      availability := availability[day := slots];
    }

    /** Submitting: rejected with the first missing required field, else
        the payload with every window formatted. */
    method HandleSubmit(fmt: Moment -> string) returns (out: Result<RiderPayload, string>)
      ensures !Truthy(selectedName) ==> out == Failure("Name is required.")
      ensures Truthy(selectedName) && email == "" ==> out == Failure("Email is required.")
      ensures out.Success? <==> Truthy(selectedName) && email != ""
      ensures out.Success? ==>
        && out.value.name == selectedName.value
        && out.value.email == email
        && out.value.divisions == divisions
        && FormattedFrom(out.value.availability, availability, fmt)
    {
      if !Truthy(selectedName) {
        return Failure("Name is required.");
      }
      if email == "" {
        return Failure("Email is required.");
      }
      var formattedAvailability := FormatAvailability(availability, fmt);
      out := Success(RiderPayload(selectedName.value, email, formattedAvailability, divisions));
    }
  }
}
