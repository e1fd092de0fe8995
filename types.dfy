/** The records of the invitation app (`types.ts`), as values. Timestamps are
    integer milliseconds since the epoch; a date the app stores as an ISO string
    is kept here in the parsed form `Deadline`. */
module Types {
  import opened Text

  /** One invited person of the guest directory. */
  datatype GuestEntry = GuestEntry(
    id: string,
    name: string,
    phone: string,
    used: bool,
    usedAt: Option<int>)

  /** A candidate place for the party. */
  datatype VenueOption = VenueOption(
    id: string,
    name: string,
    vibe: string,
    minSpend: string,
    closingTime: string,
    description: string,
    perks: seq<string>,
    color: string,
    videoUrl: Option<string>,
    googleMapsUrl: Option<string>)

  /** A ticket category with its remaining stock. */
  datatype TicketTier = TicketTier(
    id: string,
    name: string,
    description: string,
    stock: int,
    color: string,
    gradient: string,
    border: string,
    perks: seq<string>)

  /** The voting deadline of the configuration, as `new Date(votingDeadline).getTime()`
      sees it: absent or empty, not a date (NaN, every comparison false), or a time. */
  datatype Deadline = NoDeadline | Unparsable | At(ms: int)

  /** Event-wide settings, one row shared by all sessions. */
  datatype EventConfig = EventConfig(
    dateDisplay: string,
    fullDate: string,
    time: string,
    locationPlaceholder: string,
    adminUser: Option<string>,
    adminPassword: Option<string>,
    guestPasscode: Option<string>,
    votingDeadline: Deadline,
    winningVenueId: Option<string>,
    maxCapacity: Option<int>)

  /** One registrant's submission: a vote, and after a claim, a tier and tickets. */
  datatype RsvpData = RsvpData(
    id: Option<string>,
    firstName: string,
    lastName: string,
    email: string,
    selectedVenue: Option<VenueOption>,
    selectedTier: Option<TicketTier>,
    guestCount: int,
    isAttending: bool,
    songRequest: string,
    timestamp: int,
    ticketIds: Option<seq<string>>)

  /** The top-level screens. */
  datatype AppState = LOCKED | INVITATION | RSVP | SUCCESS | ADMIN

  /** No two guests of the directory share a phone number. */
  predicate PhonesUnique(guests: seq<GuestEntry>) {
    forall i, j :: 0 <= i < j < |guests| ==> guests[i].phone != guests[j].phone
  }

  /** A configured winner, as the truthiness test `config.winningVenueId ? … : …` sees it. */
  predicate HasForcedWinnerId(config: EventConfig) {
    config.winningVenueId.Some? && config.winningVenueId.value != ""
  }

  /** `venues.find(v => v.id === id)`: the first venue with that id. */
  function FindVenue(venues: seq<VenueOption>, id: string): (r: Option<VenueOption>)
    ensures r.Some? ==> r.value in venues && r.value.id == id
    ensures r.None? ==> forall v :: v in venues ==> v.id != id
    ensures r.Some? ==> exists k :: 0 <= k < |venues| && venues[k] == r.value
                          && forall j :: 0 <= j < k ==> venues[j].id != id
  {
    if venues == [] then None
    else if venues[0].id == id then
      assert venues[0] == venues[0];
      Some(venues[0])
    else
      var r := FindVenue(venues[1..], id);
      if r.Some? then
        var k :| 0 <= k < |venues[1..]| && venues[1..][k] == r.value
                 && forall j :: 0 <= j < k ==> venues[1..][j].id != id;
        assert venues[k + 1] == r.value;
        r
      else r
  }
}
