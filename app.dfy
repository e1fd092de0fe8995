/** The top-level shell (`App.tsx`): which screen is shown, the guest
    directory and its bookkeeping, the shared configuration and the list of
    registrations. Database reads and change-feed records arrive as method
    inputs; database writes leave as out-parameters (the rows to delete and to
    upsert) or are recorded in the ghost `rsvpTable`. */
module App {
  import opened Text
  import opened Types
  import RsvpForm
  import DetailsCard
  import UnlockScreen

  /** One week in milliseconds: the default voting window. */
  const WEEK_MS: int := 604800000

  /** The built-in configuration, built when the app loads at time `loadedAt`. */
  function DefaultConfig(loadedAt: int): EventConfig {
    EventConfig("28 . 02", "Sábado, 28 de Febrero 2026", "09:00 PM", "Ubicación por Confirmar",
                Some("71267719"), Some("S0p0rt3#"), Some("2026"), At(loadedAt + WEEK_MS), None, Some(50))
  }

  /** The built-in configuration keeps voting open for the whole first week and
      closes it at any later time. */
  lemma DefaultVotingWindow(loadedAt: int, now: int)
    ensures loadedAt <= now < loadedAt + WEEK_MS ==>
              VotingStillOpen(DefaultConfig(loadedAt), now) && !IsVotingClosed(DefaultConfig(loadedAt), now)
    ensures now > loadedAt + WEEK_MS ==>
              !VotingStillOpen(DefaultConfig(loadedAt), now) && IsVotingClosed(DefaultConfig(loadedAt), now)
  {
  }

  /** The built-in guest directory. */
  const DEFAULT_GUESTS: seq<GuestEntry> := [
    GuestEntry("11111111-1111-1111-1111-111111111111", "Carlos", "987654321", false, None),
    GuestEntry("22222222-2222-2222-2222-222222222222", "María", "912345678", false, None),
    GuestEntry("33333333-3333-3333-3333-333333333333", "Alonso", "956781234", false, None)
  ]

  /** Every built-in guest can unlock: the phones are eligible, distinct and unused. */
  lemma DefaultGuestsCanUnlock()
    ensures PhonesUnique(DEFAULT_GUESTS) && IdsUnique(DEFAULT_GUESTS)
    ensures forall g :: g in DEFAULT_GUESTS ==> UnlockScreen.PhonePattern(g.phone) && !g.used
  {
    DefaultGuestsDistinct();
    DefaultGuestsEligible();
  }

  lemma DefaultGuestsDistinct()
    ensures PhonesUnique(DEFAULT_GUESTS) && IdsUnique(DEFAULT_GUESTS)
  {
  }

  lemma DefaultGuestsEligible()
    ensures forall g :: g in DEFAULT_GUESTS ==> UnlockScreen.PhonePattern(g.phone) && !g.used
  {
    forall g | g in DEFAULT_GUESTS
      ensures UnlockScreen.PhonePattern(g.phone)
    {
      assert AllDigits(g.phone);
    }
  }

  // ---------------------------------------------------------------- voting

  /** App.tsx:375: a parsable deadline still ahead and no forced winner. */
  predicate VotingStillOpen(config: EventConfig, now: int) {
    config.votingDeadline.At? && config.votingDeadline.ms > now && !HasForcedWinnerId(config)
  }

  /** Voting that is still open now was open at every earlier time too. */
  lemma VotingOpenBefore(config: EventConfig, now: int, earlier: int)
    requires earlier <= now
    ensures VotingStillOpen(config, now) ==> VotingStillOpen(config, earlier)
  {
  }

  /** App.tsx:421, the same test as the details card's. */
  predicate IsVotingClosed(config: EventConfig, now: int) {
    DetailsCard.IsVotingClosed(config, now)
  }

  /** The two voting tests are never both true, and there are states in which
      neither is: the instant of the deadline, a missing or unparsable deadline,
      and a forced winner before the deadline. */
  lemma VotingTestsGap(config: EventConfig, now: int)
    ensures !(VotingStillOpen(config, now) && IsVotingClosed(config, now))
    ensures config.votingDeadline == At(now) ==> !VotingStillOpen(config, now) && !IsVotingClosed(config, now)
    ensures !config.votingDeadline.At? ==> !VotingStillOpen(config, now) && !IsVotingClosed(config, now)
    ensures HasForcedWinnerId(config) && config.votingDeadline.At? && config.votingDeadline.ms > now ==>
              !VotingStillOpen(config, now) && !IsVotingClosed(config, now)
  {
  }

  /** App.tsx:422: the forced winner if one is configured (or nothing if its
      id names no venue), otherwise the first venue. */
  function AppWinningVenue(config: EventConfig, venues: seq<VenueOption>): (r: Option<VenueOption>)
    ensures HasForcedWinnerId(config) ==> r == DetailsCard.ForcedWinner(config, venues)
    ensures !HasForcedWinnerId(config) ==> (r.Some? <==> |venues| > 0)
    ensures !HasForcedWinnerId(config) && |venues| > 0 ==> r == Some(venues[0])
  {
    if HasForcedWinnerId(config) then FindVenue(venues, config.winningVenueId.value)
    else if |venues| > 0 then Some(venues[0])
    else None
  }

  // ---------------------------------------------------------------- registrations

  /** A row of the registrations table, as read back. */
  datatype DbRsvpRow = DbRsvpRow(
    firstName: string,
    lastName: string,
    email: Option<string>,
    selectedVenueId: Option<string>,
    selectedTierId: Option<string>,
    guestCount: Option<int>,
    ticketIds: Option<seq<string>>,
    createdAt: int)

  /** `INITIAL_TIERS.find(t => t.id === id)`. */
  function FindTier(tiers: seq<TicketTier>, id: string): (r: Option<TicketTier>)
    ensures r.Some? ==> r.value in tiers && r.value.id == id
    ensures r.None? ==> forall t :: t in tiers ==> t.id != id
    ensures r.Some? ==> exists k :: 0 <= k < |tiers| && tiers[k] == r.value
                          && forall j :: 0 <= j < k ==> tiers[j].id != id
  {
    if tiers == [] then None
    else if tiers[0].id == id then
      assert tiers[0] == tiers[0];
      Some(tiers[0])
    else
      var r := FindTier(tiers[1..], id);
      if r.Some? then
        var k :| 0 <= k < |tiers[1..]| && tiers[1..][k] == r.value
                 && forall j :: 0 <= j < k ==> tiers[1..][j].id != id;
        assert tiers[k + 1] == r.value;
        r
      else r
  }

  /** A stored registration as the app sees it: venue and tier looked up by id
      (the tier among the built-in ones), empty email, no companions and no
      tickets where the row has none, attending, and no song request. */
  function MapRsvpFromDb(row: DbRsvpRow, venues: seq<VenueOption>): (r: RsvpData)
    ensures r.id.None? && r.firstName == row.firstName && r.lastName == row.lastName
    ensures r.email == (if row.email.Some? then row.email.value else "")
    ensures r.selectedVenue.Some? ==>
              row.selectedVenueId.Some? && r.selectedVenue.value in venues
              && r.selectedVenue.value.id == row.selectedVenueId.value
    ensures r.selectedVenue.None? ==>
              row.selectedVenueId.None? || forall v :: v in venues ==> v.id != row.selectedVenueId.value
    ensures r.selectedTier.Some? ==>
              row.selectedTierId.Some? && r.selectedTier.value in RsvpForm.INITIAL_TIERS
              && r.selectedTier.value.id == row.selectedTierId.value
    ensures r.selectedTier.None? ==>
              row.selectedTierId.None?
              || forall t :: t in RsvpForm.INITIAL_TIERS ==> t.id != row.selectedTierId.value
    ensures r.guestCount == (if row.guestCount.Some? then row.guestCount.value else 0)
    ensures r.ticketIds == Some(if row.ticketIds.Some? then row.ticketIds.value else [])
    ensures r.timestamp == row.createdAt && r.isAttending && r.songRequest == ""
  {
    RsvpData(
      None, row.firstName, row.lastName,
      if row.email.Some? then row.email.value else "",
      if row.selectedVenueId.Some? then FindVenue(venues, row.selectedVenueId.value) else None,
      if row.selectedTierId.Some? then FindTier(RsvpForm.INITIAL_TIERS, row.selectedTierId.value) else None,
      if row.guestCount.Some? then row.guestCount.value else 0,
      true, "", row.createdAt,
      Some(if row.ticketIds.Some? then row.ticketIds.value else []))
  }

  /** `x?.id || null`. */
  function IdOrNull(id: Option<string>): (r: Option<string>)
    ensures r.Some? <==> id.Some? && id.value != ""
    ensures r.Some? ==> r == id
  {
    if id.Some? && id.value != "" then id else None
  }

  /** The row a submission inserts, created at `now`. */
  function ToDbRow(data: RsvpData, now: int): (row: DbRsvpRow)
    ensures row.firstName == data.firstName && row.lastName == data.lastName && row.email == Some(data.email)
    ensures row.selectedVenueId.Some? <==> data.selectedVenue.Some? && data.selectedVenue.value.id != ""
    ensures row.selectedTierId.Some? <==> data.selectedTier.Some? && data.selectedTier.value.id != ""
    ensures row.selectedVenueId.Some? ==> row.selectedVenueId.value == data.selectedVenue.value.id
    ensures row.selectedTierId.Some? ==> row.selectedTierId.value == data.selectedTier.value.id
    ensures row.guestCount == Some(data.guestCount) && row.ticketIds == data.ticketIds
    ensures row.createdAt == now
  {
    DbRsvpRow(data.firstName, data.lastName, Some(data.email),
              IdOrNull(if data.selectedVenue.Some? then Some(data.selectedVenue.value.id) else None),
              IdOrNull(if data.selectedTier.Some? then Some(data.selectedTier.value.id) else None),
              Some(data.guestCount), data.ticketIds, now)
  }

  predicate VenueIdsUnique(venues: seq<VenueOption>) {
    forall i, j :: 0 <= i < j < |venues| ==> venues[i].id != venues[j].id
  }

  lemma FindUniqueVenue(venues: seq<VenueOption>, v: VenueOption)
    requires VenueIdsUnique(venues) && v in venues
    ensures FindVenue(venues, v.id) == Some(v)
  {
    var r := FindVenue(venues, v.id);
    var k :| 0 <= k < |venues| && venues[k] == r.value && forall j :: 0 <= j < k ==> venues[j].id != v.id;
    var m :| 0 <= m < |venues| && venues[m] == v;
  }

  /** A submission read back from its row: names, email, companions and tickets
      come back as sent, and so do the venue (when the venue list has unique
      ids and still holds it) and the tier (as its built-in entry). The time is
      the insertion time; attendance and the song request are not stored and
      come back as attending and empty. */
  lemma RsvpRowRoundTrip(data: RsvpData, venues: seq<VenueOption>, now: int)
    requires data.selectedVenue.Some? ==>
               data.selectedVenue.value in venues && VenueIdsUnique(venues) && data.selectedVenue.value.id != ""
    requires data.selectedTier.Some? ==> data.selectedTier.value in RsvpForm.INITIAL_TIERS
    ensures var r := MapRsvpFromDb(ToDbRow(data, now), venues);
            r.firstName == data.firstName && r.lastName == data.lastName && r.email == data.email
            && r.guestCount == data.guestCount && r.selectedVenue == data.selectedVenue
            && r.selectedTier == data.selectedTier
            && r.ticketIds == Some(if data.ticketIds.Some? then data.ticketIds.value else [])
            && r.timestamp == now && r.isAttending && r.songRequest == ""
  {
    if data.selectedVenue.Some? {
      FindUniqueVenue(venues, data.selectedVenue.value);
    }
  }

  // ---------------------------------------------------------------- configuration

  /** One key of a stored settings object: absent, or present with a value. */
  datatype Patch<T> = Keep | Put(value: T)

  function Patched<T>(old_: T, p: Patch<T>): T {
    if p.Put? then p.value else old_
  }

  /** The keys a stored or broadcast settings object carries. */
  datatype ConfigPatch = ConfigPatch(
    dateDisplay: Patch<string>,
    fullDate: Patch<string>,
    time: Patch<string>,
    locationPlaceholder: Patch<string>,
    adminUser: Patch<Option<string>>,
    adminPassword: Patch<Option<string>>,
    guestPasscode: Patch<Option<string>>,
    votingDeadline: Patch<Deadline>,
    winningVenueId: Patch<Option<string>>,
    maxCapacity: Patch<Option<int>>)

  const EMPTY_PATCH: ConfigPatch := ConfigPatch(Keep, Keep, Keep, Keep, Keep, Keep, Keep, Keep, Keep, Keep)

  /** One key after the spread: the patch's value when it carries the key,
      the old value otherwise. */
  predicate Spread<T(==)>(before: T, p: Patch<T>, after: T) {
    (p.Put? ==> after == p.value) && (p.Keep? ==> after == before)
  }

  /** `{ ...config, ...patch }`: every key the patch carries is overwritten
      and every other key keeps its value. */
  function MergeConfig(c: EventConfig, p: ConfigPatch): (r: EventConfig)
    ensures Spread(c.dateDisplay, p.dateDisplay, r.dateDisplay)
    ensures Spread(c.fullDate, p.fullDate, r.fullDate)
    ensures Spread(c.time, p.time, r.time)
    ensures Spread(c.locationPlaceholder, p.locationPlaceholder, r.locationPlaceholder)
    ensures Spread(c.adminUser, p.adminUser, r.adminUser)
    ensures Spread(c.adminPassword, p.adminPassword, r.adminPassword)
    ensures Spread(c.guestPasscode, p.guestPasscode, r.guestPasscode)
    ensures Spread(c.votingDeadline, p.votingDeadline, r.votingDeadline)
    ensures Spread(c.winningVenueId, p.winningVenueId, r.winningVenueId)
    ensures Spread(c.maxCapacity, p.maxCapacity, r.maxCapacity)
  {
    EventConfig(Patched(c.dateDisplay, p.dateDisplay), Patched(c.fullDate, p.fullDate),
                Patched(c.time, p.time), Patched(c.locationPlaceholder, p.locationPlaceholder),
                Patched(c.adminUser, p.adminUser), Patched(c.adminPassword, p.adminPassword),
                Patched(c.guestPasscode, p.guestPasscode), Patched(c.votingDeadline, p.votingDeadline),
                Patched(c.winningVenueId, p.winningVenueId), Patched(c.maxCapacity, p.maxCapacity))
  }

  function Later<T>(p: Patch<T>, q: Patch<T>): Patch<T> {
    if q.Put? then q else p
  }

  /** Two settings objects spread one after the other. */
  function Compose(p: ConfigPatch, q: ConfigPatch): ConfigPatch {
    ConfigPatch(Later(p.dateDisplay, q.dateDisplay), Later(p.fullDate, q.fullDate),
                Later(p.time, q.time), Later(p.locationPlaceholder, q.locationPlaceholder),
                Later(p.adminUser, q.adminUser), Later(p.adminPassword, q.adminPassword),
                Later(p.guestPasscode, q.guestPasscode), Later(p.votingDeadline, q.votingDeadline),
                Later(p.winningVenueId, q.winningVenueId), Later(p.maxCapacity, q.maxCapacity))
  }

  /** An update overwrites the keys it carries and keeps every other: an
      empty one changes nothing, applying one twice is the same as once, and
      two in a row are the same as their combination. */
  lemma MergeConfigLaws(c: EventConfig, p: ConfigPatch, q: ConfigPatch)
    ensures MergeConfig(c, EMPTY_PATCH) == c
    ensures MergeConfig(MergeConfig(c, p), p) == MergeConfig(c, p)
    ensures MergeConfig(MergeConfig(c, p), q) == MergeConfig(c, Compose(p, q))
  {
  }

  /** A change-feed record of the configuration table. */
  datatype ConfigChange =
    | NoRecord
    | SettingsChanged(patch: ConfigPatch)
    | VenuesChanged(venues: seq<VenueOption>)
    | OtherKey

  // ---------------------------------------------------------------- guests

  predicate IdsUnique(guests: seq<GuestEntry>) {
    forall i, j :: 0 <= i < j < |guests| ==> guests[i].id != guests[j].id
  }

  /** Unlocking: the guests with the given id are marked used at `now`. */
  function MarkUsed(guests: seq<GuestEntry>, id: string, now: int): (r: seq<GuestEntry>)
    ensures |r| == |guests|
    ensures forall i :: 0 <= i < |guests| && guests[i].id == id ==>
              r[i] == guests[i].(used := true, usedAt := Some(now))
    ensures forall i :: 0 <= i < |guests| && guests[i].id != id ==> r[i] == guests[i]
  {
    if guests == [] then []
    else
      [if guests[0].id == id then guests[0].(used := true, usedAt := Some(now)) else guests[0]]
      + MarkUsed(guests[1..], id, now)
  }

  /** In a directory with unique ids, unlocking a listed guest changes exactly
      that guest's entry and leaves the ids, order and length as they were. */
  lemma MarkUsedChangesOne(guests: seq<GuestEntry>, g: GuestEntry, now: int)
    requires IdsUnique(guests) && g in guests
    ensures var r := MarkUsed(guests, g.id, now);
            exists k :: 0 <= k < |guests| && guests[k] == g
                        && r[k] == g.(used := true, usedAt := Some(now))
                        && forall i :: 0 <= i < |guests| && i != k ==> r[i] == guests[i]
    ensures var r := MarkUsed(guests, g.id, now);
            forall i :: 0 <= i < |guests| ==> r[i].id == guests[i].id
  {
    var k :| 0 <= k < |guests| && guests[k] == g;
    var r := MarkUsed(guests, g.id, now);
    assert forall i :: 0 <= i < |guests| && i != k ==> guests[i].id != g.id;
    assert r[k] == g.(used := true, usedAt := Some(now));
  }

  function HasId(guests: seq<GuestEntry>, id: string): bool {
    exists n :: n in guests && n.id == id
  }

  /** `updateGuestList`'s diff: the ids of the old list that the new list no
      longer has, in the old order. */
  function GuestsToDelete(oldList: seq<GuestEntry>, newList: seq<GuestEntry>): (r: seq<string>)
    ensures forall id :: id in r <==> HasId(oldList, id) && !HasId(newList, id)
    ensures |r| <= |oldList|
  {
    if oldList == [] then []
    else
      var rest := GuestsToDelete(oldList[1..], newList);
      assert forall id :: HasId(oldList, id) <==> oldList[0].id == id || HasId(oldList[1..], id) by {
        forall id
          ensures HasId(oldList, id) <==> oldList[0].id == id || HasId(oldList[1..], id)
        {
          if HasId(oldList, id) {
            var n :| n in oldList && n.id == id;
            var i :| 0 <= i < |oldList| && oldList[i] == n;
            if i > 0 {
              assert oldList[1..][i - 1] == n;
            }
          }
          if HasId(oldList[1..], id) {
            var n :| n in oldList[1..] && n.id == id;
            assert n in oldList;
          }
        }
      }
      if HasId(newList, oldList[0].id) then rest else [oldList[0].id] + rest
  }

  /** Unlocking deletes nobody: marking a guest used keeps every id. */
  lemma UnlockDeletesNothing(guests: seq<GuestEntry>, id: string, now: int)
    ensures GuestsToDelete(guests, MarkUsed(guests, id, now)) == []
  {
    var r := MarkUsed(guests, id, now);
    forall n | n in guests
      ensures HasId(r, n.id)
    {
      var i :| 0 <= i < |guests| && guests[i] == n;
      assert r[i] in r;
    }
    NothingToDelete(guests, r);
  }

  /** A new list that still has every old id deletes nothing. */
  lemma {:induction false} NothingToDelete(oldList: seq<GuestEntry>, newList: seq<GuestEntry>)
    requires forall n :: n in oldList ==> HasId(newList, n.id)
    ensures GuestsToDelete(oldList, newList) == []
  {
    if oldList != [] {
      assert oldList[0] in oldList;
      NothingToDelete(oldList[1..], newList);
    }
  }

  /** A guest as upserted: ids shorter than ten characters are left for the
      database to assign, and a missing or zero use time is sent as null. */
  datatype GuestRow = GuestRow(id: Option<string>, name: string, phone: string, used: bool, usedAt: Option<int>)

  function ToGuestRow(g: GuestEntry): (row: GuestRow)
    ensures row.id.None? <==> |g.id| < 10
    ensures row.id.Some? ==> row.id.value == g.id
    ensures row.usedAt.Some? <==> g.usedAt.Some? && g.usedAt.value != 0
    ensures row.name == g.name && row.phone == g.phone && row.used == g.used
  {
    GuestRow(if |g.id| < 10 then None else Some(g.id), g.name, g.phone, g.used,
             if g.usedAt.Some? && g.usedAt.value != 0 then g.usedAt else None)
  }

  /** A guest row as stored: with the given id where the upsert had none. */
  function Stored(row: GuestRow, assignedId: string): GuestRow {
    row.(id := Some(if row.id.Some? then row.id.value else assignedId))
  }

  /** A stored guest row read back into the directory. */
  function GuestFromRow(row: GuestRow): (g: GuestEntry)
    requires row.id.Some?
    ensures g.id == row.id.value && g.name == row.name && g.phone == row.phone
    ensures g.used == row.used && g.usedAt == row.usedAt
  {
    GuestEntry(row.id.value, row.name, row.phone, row.used, row.usedAt)
  }

  /** Upserting a guest and reading it back gives the same guest, except that a
      short id is replaced by the database's and a use time of 0 is lost. */
  lemma GuestRowRoundTrip(g: GuestEntry, assignedId: string)
    ensures var back := GuestFromRow(Stored(ToGuestRow(g), assignedId));
            back.name == g.name && back.phone == g.phone && back.used == g.used
            && back.id == (if |g.id| < 10 then assignedId else g.id)
            && back.usedAt == (if g.usedAt == Some(0) then None else g.usedAt)
  {
  }

  /** The directory after the initial fetch: the built-in guests when the table
      is empty or unreadable, otherwise the stored rows. */
  function LoadedGuests(rows: Option<seq<GuestRow>>): (r: seq<GuestEntry>)
    requires rows.Some? ==> forall i :: 0 <= i < |rows.value| ==> rows.value[i].id.Some?
    ensures rows.None? || |rows.value| == 0 ==> r == DEFAULT_GUESTS
    ensures rows.Some? && |rows.value| > 0 ==>
              |r| == |rows.value| && forall i :: 0 <= i < |r| ==> r[i] == GuestFromRow(rows.value[i])
  {
    if rows.None? || |rows.value| == 0 then DEFAULT_GUESTS
    else seq(|rows.value|, i requires 0 <= i < |rows.value| => GuestFromRow(rows.value[i]))
  }

  // ---------------------------------------------------------------- routing

  /** Where unlocking leads, given the first registration the name lookup found
      (mapped), the registration cached on this device and the configuration. */
  function UnlockRoute(found: Option<RsvpData>, cached: Option<RsvpData>, config: EventConfig, now: int): (r: AppState)
    ensures r == SUCCESS || r == INVITATION
    ensures found.Some? ==>
              (r == SUCCESS <==> !VotingStillOpen(config, now)
                                 && found.value.ticketIds.Some? && |found.value.ticketIds.value| > 0)
    ensures found.None? ==> (r == SUCCESS <==> cached.Some?)
  {
    if found.Some? then
      if VotingStillOpen(config, now) then INVITATION
      else if found.value.ticketIds.Some? && |found.value.ticketIds.value| > 0 then SUCCESS
      else INVITATION
    else if cached.Some? then SUCCESS
    else INVITATION
  }

  /** A found registration without tickets never leads to the ticket screen,
      and one with tickets does once voting is no longer open. */
  lemma UnlockRouteCases(row: DbRsvpRow, venues: seq<VenueOption>, cached: Option<RsvpData>,
                         config: EventConfig, now: int)
    ensures row.ticketIds.None? || row.ticketIds.value == [] ==>
              UnlockRoute(Some(MapRsvpFromDb(row, venues)), cached, config, now) == INVITATION
    ensures row.ticketIds.Some? && row.ticketIds.value != [] && IsVotingClosed(config, now) ==>
              UnlockRoute(Some(MapRsvpFromDb(row, venues)), cached, config, now) == SUCCESS
  {
    VotingTestsGap(config, now);
  }

  /** The shell's state, updated in place by its handlers. */
  class AppShell {
    var appState: AppState
    var currentRsvpData: Option<RsvpData>
    var allRsvps: seq<RsvpData>
    var guestList: seq<GuestEntry>
    var config: EventConfig
    var venues: seq<VenueOption>
    /** The built-in configuration of this load, under the stored settings. */
    const defaults: EventConfig
    /** The built-in venue list (its contents are not part of this model). */
    const defaultVenues: seq<VenueOption>
    /** The rows this session inserted into the registrations table. */
    ghost var rsvpTable: seq<DbRsvpRow>

    /** The ticket screen is shown only with a registration to show. */
    ghost predicate Valid()
      reads this
    {
      appState == SUCCESS ==> currentRsvpData.Some?
    }

    constructor(loadedAt: int, defaultVenues: seq<VenueOption>)
      ensures Valid() && appState == LOCKED && currentRsvpData.None? && allRsvps == []
      ensures guestList == DEFAULT_GUESTS && config == DefaultConfig(loadedAt) && venues == defaultVenues
      ensures defaults == DefaultConfig(loadedAt) && this.defaultVenues == defaultVenues && rsvpTable == []
    {
      appState := LOCKED;
      currentRsvpData := None;
      allRsvps := [];
      guestList := DEFAULT_GUESTS;
      config := DefaultConfig(loadedAt);
      defaults := DefaultConfig(loadedAt);
      venues := defaultVenues;
      this.defaultVenues := defaultVenues;
      rsvpTable := [];
    }

    /** The registration cached on this device, when it parses. */
    method RestoreCached(cached: Option<RsvpData>)
      requires Valid()
      modifies this
      ensures Valid()
      ensures currentRsvpData == if cached.Some? then cached else old(currentRsvpData)
      ensures appState == old(appState) && allRsvps == old(allRsvps) && guestList == old(guestList)
      ensures config == old(config) && venues == old(venues) && rsvpTable == old(rsvpTable)
    {
      if cached.Some? {
        currentRsvpData := cached;
      }
    }

    /** The initial fetch, with each query's answer (absent when it failed).
        Returns the rows seeded into an empty guest table. */
    method LoadData(settings: Option<ConfigPatch>, storedVenues: Option<seq<VenueOption>>,
                    guestRows: Option<seq<GuestRow>>, rsvpRows: Option<seq<DbRsvpRow>>)
      returns (seeded: seq<GuestRow>)
      requires guestRows.Some? ==> forall i :: 0 <= i < |guestRows.value| ==> guestRows.value[i].id.Some?
      requires Valid()
      modifies this
      ensures Valid()
      ensures config == if settings.Some? then MergeConfig(defaults, settings.value) else old(config)
      ensures venues == if storedVenues.Some? then storedVenues.value else old(venues)
      ensures guestList == LoadedGuests(guestRows)
      ensures seeded == (if guestRows.None? || |guestRows.value| == 0
                         then seq(|DEFAULT_GUESTS|, i requires 0 <= i < |DEFAULT_GUESTS| => ToGuestRow(DEFAULT_GUESTS[i]))
                         else [])
      ensures allRsvps == if rsvpRows.Some?
                          then seq(|rsvpRows.value|, i requires 0 <= i < |rsvpRows.value| =>
                                     MapRsvpFromDb(rsvpRows.value[i],
                                                   if storedVenues.Some? then storedVenues.value else defaultVenues))
                          else old(allRsvps)
      ensures appState == old(appState) && currentRsvpData == old(currentRsvpData) && rsvpTable == old(rsvpTable)
    {
      if settings.Some? {
        config := MergeConfig(defaults, settings.value);
      }
      var currentVenues := if storedVenues.Some? then storedVenues.value else defaultVenues;
      if storedVenues.Some? {
        venues := currentVenues;
      }
      if guestRows.None? || |guestRows.value| == 0 {
        seeded := seq(|DEFAULT_GUESTS|, i requires 0 <= i < |DEFAULT_GUESTS| => ToGuestRow(DEFAULT_GUESTS[i]));
      } else {
        seeded := [];
      }
      guestList := LoadedGuests(guestRows);
      if rsvpRows.Some? {
        allRsvps := seq(|rsvpRows.value|, i requires 0 <= i < |rsvpRows.value| =>
                          MapRsvpFromDb(rsvpRows.value[i], currentVenues));
      }
    }

    /** A change-feed record of the configuration table. */
    method OnConfigChange(change: ConfigChange)
      requires Valid()
      modifies this
      ensures Valid()
      ensures config == if change.SettingsChanged? then MergeConfig(old(config), change.patch) else old(config)
      ensures venues == if change.VenuesChanged? then change.venues else old(venues)
      ensures appState == old(appState) && currentRsvpData == old(currentRsvpData)
      ensures allRsvps == old(allRsvps) && guestList == old(guestList) && rsvpTable == old(rsvpTable)
    {
      match change
      case SettingsChanged(p) =>
        config := MergeConfig(config, p);
      case VenuesChanged(vs) =>
        venues := vs;
      case _ =>
    }

    /** The admin's saves: the whole configuration, or the whole venue list. */
    method UpdateConfig(newConfig: EventConfig)
      requires Valid()
      modifies this
      ensures Valid() && config == newConfig && venues == old(venues) && appState == old(appState)
      ensures currentRsvpData == old(currentRsvpData) && allRsvps == old(allRsvps) && guestList == old(guestList)
      ensures rsvpTable == old(rsvpTable)
    {
      config := newConfig;
    }

    method UpdateVenues(newVenues: seq<VenueOption>)
      requires Valid()
      modifies this
      ensures Valid() && venues == newVenues && config == old(config) && appState == old(appState)
      ensures currentRsvpData == old(currentRsvpData) && allRsvps == old(allRsvps) && guestList == old(guestList)
      ensures rsvpTable == old(rsvpTable)
    {
      venues := newVenues;
    }

    /** Replaces the directory; returns the ids to delete and the rows to upsert. */
    method UpdateGuestList(newList: seq<GuestEntry>) returns (toDelete: seq<string>, rows: seq<GuestRow>)
      requires Valid()
      modifies this
      ensures Valid() && guestList == newList
      ensures toDelete == GuestsToDelete(old(guestList), newList)
      ensures |rows| == |newList| && forall i :: 0 <= i < |newList| ==> rows[i] == ToGuestRow(newList[i])
      ensures appState == old(appState) && currentRsvpData == old(currentRsvpData) && allRsvps == old(allRsvps)
      ensures config == old(config) && venues == old(venues) && rsvpTable == old(rsvpTable)
    {
      toDelete := GuestsToDelete(guestList, newList);
      guestList := newList;
      rows := seq(|newList|, i requires 0 <= i < |newList| => ToGuestRow(newList[i]));
    }

    /** A verified guest enters: the guest is marked used, and the screen is
        chosen from the name lookup's first match, the cached registration and
        the configuration. Returns the directory write. The clock is read
        twice: `markedAt` stamps the use, and `routedAt`, read after the
        awaited lookup, decides whether voting is still open. */
    method HandleUnlock(guest: GuestEntry, markedAt: int, routedAt: int, existing: Option<DbRsvpRow>)
      returns (toDelete: seq<string>, rows: seq<GuestRow>)
      requires Valid()
      modifies this
      ensures Valid()
      ensures guestList == MarkUsed(old(guestList), guest.id, markedAt)
      ensures toDelete == [] && |rows| == |guestList|
      ensures forall i :: 0 <= i < |rows| ==> rows[i] == ToGuestRow(guestList[i])
      ensures existing.Some? ==> currentRsvpData == Some(MapRsvpFromDb(existing.value, venues))
      ensures existing.None? ==> currentRsvpData == old(currentRsvpData)
      ensures appState == UnlockRoute(if existing.Some? then Some(MapRsvpFromDb(existing.value, venues)) else None,
                                      old(currentRsvpData), config, routedAt)
      ensures allRsvps == old(allRsvps) && config == old(config) && venues == old(venues)
      ensures rsvpTable == old(rsvpTable)
    {
      var updated := MarkUsed(guestList, guest.id, markedAt);
      UnlockDeletesNothing(guestList, guest.id, markedAt);
      toDelete, rows := UpdateGuestList(updated);
      var cached := currentRsvpData;
      var found: Option<RsvpData> := None;
      if existing.Some? {
        found := Some(MapRsvpFromDb(existing.value, venues));
        currentRsvpData := found;
      }
      appState := UnlockRoute(found, cached, config, routedAt);
    }

    /** The navigation handlers. */
    method HandleAdminEnter()
      requires Valid()
      modifies this
      ensures Valid() && appState == ADMIN && currentRsvpData == old(currentRsvpData)
      ensures config == old(config) && venues == old(venues) && guestList == old(guestList)
      ensures allRsvps == old(allRsvps) && rsvpTable == old(rsvpTable)
    {
      appState := ADMIN;
    }

    method StartRsvp()
      requires Valid()
      modifies this
      ensures Valid() && appState == RSVP && currentRsvpData == old(currentRsvpData)
      ensures config == old(config) && venues == old(venues) && guestList == old(guestList)
      ensures allRsvps == old(allRsvps) && rsvpTable == old(rsvpTable)
    {
      appState := RSVP;
    }

    method HandleBackToDetails()
      requires Valid()
      modifies this
      ensures Valid() && appState == INVITATION && currentRsvpData == old(currentRsvpData)
      ensures config == old(config) && venues == old(venues) && guestList == old(guestList)
      ensures allRsvps == old(allRsvps) && rsvpTable == old(rsvpTable)
    {
      appState := INVITATION;
    }

    /** Leaving, from the ticket screen or the admin panel, always locks again. */
    method HandleExit()
      requires Valid()
      modifies this
      ensures Valid() && appState == LOCKED && currentRsvpData == old(currentRsvpData)
      ensures config == old(config) && venues == old(venues) && guestList == old(guestList)
      ensures allRsvps == old(allRsvps) && rsvpTable == old(rsvpTable)
    {
      appState := LOCKED;
    }

    /** A submission from the wizard: it becomes the current registration, is
        appended to the list and to the table, and the ticket screen opens. */
    method HandleRsvpSubmit(data: RsvpData, now: int)
      requires Valid()
      modifies this
      ensures Valid()
      ensures currentRsvpData == Some(data) && appState == SUCCESS
      ensures allRsvps == old(allRsvps) + [data] && rsvpTable == old(rsvpTable) + [ToDbRow(data, now)]
      ensures guestList == old(guestList) && config == old(config) && venues == old(venues)
    {
      currentRsvpData := Some(data);
      allRsvps := allRsvps + [data];
      rsvpTable := rsvpTable + [ToDbRow(data, now)];
      appState := SUCCESS;
    }
  }
}
