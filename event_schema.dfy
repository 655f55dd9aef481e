/**
 * The request and row shapes of an event: a name of 1 to 255 characters, a
 * non-empty location, a status, optional description, image and start and
 * end times, and the club the event belongs to. Times are timestamps.
 */
module EventSchema {
  import opened Wrappers
  import opened Folds
  import ClubSchema

  /** A field of an update body, as for clubs. */
  type Field<T> = ClubSchema.Field<T>

  datatype EventStatus = IDEATION | PLANNING | POSTED | CURRENT | PAST

  /** An event row without its id, and equally an `EventCreate` body. */
  datatype Event = Event(
    name: string,
    description: Option<string>,
    location: string,
    status: EventStatus,
    imageUrl: Option<string>,
    startTime: Option<int>,
    endTime: Option<int>,
    clubId: int)

  /** An `EventUpdate` body. Explicit nulls for the name, location, status or
      club are not representable (see README). */
  datatype EventUpdate = EventUpdate(
    name: Field<string>,
    description: Field<Option<string>>,
    location: Field<string>,
    status: Field<EventStatus>,
    imageUrl: Field<Option<string>>,
    startTime: Field<Option<int>>,
    endTime: Field<Option<int>>,
    clubId: Field<int>)

  /** The constraints of `EventBase` / `EventCreate`. */
  predicate ValidEvent(e: Event)
  {
    1 <= |e.name| <= 255 && 1 <= |e.location|
  }

  /** The constraints of `EventUpdate`: only fields that are given are checked. */
  predicate ValidEventUpdate(u: EventUpdate)
  {
    (u.name.Set? ==> 1 <= |u.name.value| <= 255) && (u.location.Set? ==> 1 <= |u.location.value|)
  }

  /** One entry of `event_update.model_dump(exclude_unset=True)`. */
  datatype EventField =
    | NameField(name: string)
    | DescriptionField(description: Option<string>)
    | LocationField(location: string)
    | StatusField(status: EventStatus)
    | ImageUrlField(imageUrl: Option<string>)
    | StartTimeField(startTime: Option<int>)
    | EndTimeField(endTime: Option<int>)
    | ClubIdField(clubId: int)

  /** The given fields of an update, in declaration order. */
  function Dump(u: EventUpdate): seq<EventField>
  {
    DumpFirst(u) + DumpLast(u)
  }

  /** The given fields among name, description, location and status. */
  function DumpFirst(u: EventUpdate): seq<EventField>
  {
    (if u.name.Set? then [NameField(u.name.value)] else [])
    + (if u.description.Set? then [DescriptionField(u.description.value)] else [])
    + (if u.location.Set? then [LocationField(u.location.value)] else [])
    + (if u.status.Set? then [StatusField(u.status.value)] else [])
  }

  /** The given fields among image, start and end times and club. */
  function DumpLast(u: EventUpdate): seq<EventField>
  {
    (if u.imageUrl.Set? then [ImageUrlField(u.imageUrl.value)] else [])
    + (if u.startTime.Set? then [StartTimeField(u.startTime.value)] else [])
    + (if u.endTime.Set? then [EndTimeField(u.endTime.value)] else [])
    + (if u.clubId.Set? then [ClubIdField(u.clubId.value)] else [])
  }

  /** `setattr(event, key, value)` for one entry. */
  function SetAttr(e: Event, f: EventField): Event
  {
    match f
    case NameField(v) => e.(name := v)
    case DescriptionField(v) => e.(description := v)
    case LocationField(v) => e.(location := v)
    case StatusField(v) => e.(status := v)
    case ImageUrlField(v) => e.(imageUrl := v)
    case StartTimeField(v) => e.(startTime := v)
    case EndTimeField(v) => e.(endTime := v)
    case ClubIdField(v) => e.(clubId := v)
  }

  /** The `setattr` loop over a list of entries, first to last. */
  function SetAttrs(e: Event, fields: seq<EventField>): Event
  {
    Fold(e, fields, SetAttr)
  }

  /** What an update means field by field: a given field takes the given
      value, every other field keeps its value. */
  function Updated(e: Event, u: EventUpdate): Event
  {
    Event(ClubSchema.Pick(u.name, e.name), ClubSchema.Pick(u.description, e.description), ClubSchema.Pick(u.location, e.location),
          ClubSchema.Pick(u.status, e.status), ClubSchema.Pick(u.imageUrl, e.imageUrl), ClubSchema.Pick(u.startTime, e.startTime),
          ClubSchema.Pick(u.endTime, e.endTime), ClubSchema.Pick(u.clubId, e.clubId))
  }


  /** Running the `setattr` loop over the dumped fields gives the field-by-field update. */
  lemma SetAttrsOfDump(e: Event, u: EventUpdate)
    ensures SetAttrs(e, Dump(u)) == Updated(e, u)
  {
    FoldAppend(e, DumpFirst(u), DumpLast(u), SetAttr);
    FirstFields(e, u);
    LastFields(SetAttrs(e, DumpFirst(u)), u);
  }

  lemma FirstFields(e: Event, u: EventUpdate)
    ensures SetAttrs(e, DumpFirst(u)) ==
      e.(name := ClubSchema.Pick(u.name, e.name), description := ClubSchema.Pick(u.description, e.description),
         location := ClubSchema.Pick(u.location, e.location), status := ClubSchema.Pick(u.status, e.status))
  {
    var a := if u.name.Set? then [NameField(u.name.value)] else [];
    var b := if u.description.Set? then [DescriptionField(u.description.value)] else [];
    var c := if u.location.Set? then [LocationField(u.location.value)] else [];
    var d := if u.status.Set? then [StatusField(u.status.value)] else [];
    FoldAppend(e, a, b, SetAttr);
    FoldAppend(e, a + b, c, SetAttr);
    FoldAppend(e, a + b + c, d, SetAttr);
  }

  lemma LastFields(e: Event, u: EventUpdate)
    ensures SetAttrs(e, DumpLast(u)) ==
      e.(imageUrl := ClubSchema.Pick(u.imageUrl, e.imageUrl), startTime := ClubSchema.Pick(u.startTime, e.startTime),
         endTime := ClubSchema.Pick(u.endTime, e.endTime), clubId := ClubSchema.Pick(u.clubId, e.clubId))
  {
    var a := if u.imageUrl.Set? then [ImageUrlField(u.imageUrl.value)] else [];
    var b := if u.startTime.Set? then [StartTimeField(u.startTime.value)] else [];
    var c := if u.endTime.Set? then [EndTimeField(u.endTime.value)] else [];
    var d := if u.clubId.Set? then [ClubIdField(u.clubId.value)] else [];
    FoldAppend(e, a, b, SetAttr);
    FoldAppend(e, a + b, c, SetAttr);
    FoldAppend(e, a + b + c, d, SetAttr);
  }

  /** A valid update keeps a valid event valid, changes exactly the given
      fields, and applying it twice is applying it once. */
  lemma UpdateProperties(e: Event, u: EventUpdate)
    ensures ValidEvent(e) && ValidEventUpdate(u) ==> ValidEvent(Updated(e, u))
    ensures Updated(Updated(e, u), u) == Updated(e, u)
    ensures u.clubId.Unset? ==> Updated(e, u).clubId == e.clubId
    ensures u.clubId.Set? ==> Updated(e, u).clubId == u.clubId.value
  {
  }
}
