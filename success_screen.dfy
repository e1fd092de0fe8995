/** The confirmation screen (`components/SuccessScreen.tsx`): which of its
    three faces a registration gets, the ticket cards it lists, the code
    printed on each card and the fields of the WhatsApp confirmation. QR
    images, the PDF export and the generated party persona are left out. */
module SuccessScreen {
  import opened Text
  import opened Types
  import RsvpForm

  /** The tier shown on every companion ticket, and on the main ticket when
      no tier was chosen. */
  const GUEST_TIER_MOCK: TicketTier := TicketTier(
    "urban", "URBAN ECHO", "Acceso General", 99, "text-gray-200", "from-gray-600 to-gray-800",
    "border-white/20", ["Acceso General"])

  /** A registration without tickets: a vote cast while voting was open. */
  predicate IsVoteOnly(data: RsvpData) {
    data.ticketIds.None? || data.ticketIds.value == []
  }

  /** The tier printed on a card. */
  function CardTier(data: RsvpData, isMainGuest: bool): (t: TicketTier)
    ensures !isMainGuest ==> t == GUEST_TIER_MOCK
    ensures isMainGuest && data.selectedTier.Some? ==> t == data.selectedTier.value
    ensures isMainGuest && data.selectedTier.None? ==> t == GUEST_TIER_MOCK
  {
    if isMainGuest && data.selectedTier.Some? then data.selectedTier.value else GUEST_TIER_MOCK
  }

  /** The code printed under the QR: the id's first eight characters in
      upper case. */
  function ShortCode(ticketId: string): (r: string)
    ensures |r| == if |ticketId| < 8 then |ticketId| else 8
    ensures forall i :: 0 <= i < |r| ==> r[i] == UpperChar(ticketId[i])
  {
    var cut := Substring(ticketId, 0, 8);
    assert cut == ticketId[..|cut|];
    ToUpper(cut)
  }

  /** One ticket card. */
  datatype Card = Card(ticketId: string, tier: TicketTier, holder: string, isMainGuest: bool, code: string)

  function Holder(data: RsvpData, i: nat): string {
    if i == 0 then data.firstName + " " + data.lastName else "Acompañante #" + NatToString(i)
  }

  /** One card per stored ticket id, in order; the first is the registrant's. */
  function Cards(data: RsvpData): (cards: seq<Card>)
    ensures data.ticketIds.None? ==> cards == []
    ensures data.ticketIds.Some? ==> |cards| == |data.ticketIds.value|
    ensures data.ticketIds.Some? ==> forall i :: 0 <= i < |cards| ==>
              cards[i].ticketId == data.ticketIds.value[i] && cards[i].isMainGuest == (i == 0)
              && cards[i].tier == CardTier(data, i == 0) && cards[i].holder == Holder(data, i)
              && cards[i].code == ShortCode(data.ticketIds.value[i])
  {
    var ids := if data.ticketIds.Some? then data.ticketIds.value else [];
    seq(|ids|, i requires 0 <= i < |ids| =>
          Card(ids[i], CardTier(data, i == 0), Holder(data, i), i == 0, ShortCode(ids[i])))
  }

  /** The three faces of the screen. */
  datatype Screen = ThankYou | VoteRecorded | Tickets(cards: seq<Card>)

  function ScreenFor(data: RsvpData): (s: Screen)
    ensures s.ThankYou? <==> !data.isAttending
    ensures s.VoteRecorded? <==> data.isAttending && IsVoteOnly(data)
    ensures s.Tickets? ==> s.cards == Cards(data) && |s.cards| > 0
  {
    if !data.isAttending then ThankYou
    else if IsVoteOnly(data) then VoteRecorded
    else Tickets(Cards(data))
  }

  /** The companion labels name each companion once: no two companion cards
      carry the same holder text. */
  lemma CompanionLabelsDistinct(data: RsvpData, i: nat, j: nat)
    requires 0 < i < j
    ensures Holder(data, i) != Holder(data, j)
  {
    var p := "Acompañante #";
    assert Holder(data, i)[|p|..] == NatToString(i);
    assert Holder(data, j)[|p|..] == NatToString(j);
    if Holder(data, i) == Holder(data, j) {
      NatToStringInjective(i, j);
    }
  }

  /** What a final submission shows: one card per person in the party, the
      first the registrant's with the chosen tier, every other a companion
      with the general tier, all with different ids. */
  lemma SubmittedTicketsShown(data: RsvpData, randoms: seq<string>)
    requires data.isAttending && data.guestCount >= 0
    requires |randoms| == RsvpForm.TicketCount(data.guestCount)
    requires data.ticketIds == Some(RsvpForm.TicketIds(data.firstName, randoms))
    ensures ScreenFor(data).Tickets?
    ensures |ScreenFor(data).cards| == 1 + data.guestCount
    ensures ScreenFor(data).cards[0].holder == data.firstName + " " + data.lastName
    ensures ScreenFor(data).cards[0].tier == (if data.selectedTier.Some? then data.selectedTier.value else GUEST_TIER_MOCK)
    ensures forall i :: 0 < i < |ScreenFor(data).cards| ==> ScreenFor(data).cards[i].tier == GUEST_TIER_MOCK
    ensures forall i, j :: 0 <= i < j < |ScreenFor(data).cards| ==>
              ScreenFor(data).cards[i].ticketId != ScreenFor(data).cards[j].ticketId
  {
    var ids := RsvpForm.TicketIds(data.firstName, randoms);
    RsvpForm.TicketIdsDistinct(data.firstName, randoms);
    var cards := Cards(data);
    assert |cards| == |ids| == 1 + data.guestCount;
    assert ScreenFor(data) == Tickets(cards);
    assert cards[0].holder == Holder(data, 0);
    forall i | 0 < i < |cards|
      ensures cards[i].tier == GUEST_TIER_MOCK
    {
      assert cards[i].tier == CardTier(data, false);
    }
    forall i, j | 0 <= i < j < |cards|
      ensures cards[i].ticketId != cards[j].ticketId
    {
      assert cards[i].ticketId == ids[i] && cards[j].ticketId == ids[j];
    }
  }

  /** The printed code of a generated ticket id depends on the first name
      only: with four or more letters it is `LUM-` and those letters. */
  lemma ShortCodeOfTicketId(firstName: string, random: string, i: nat)
    requires |firstName| >= 4
    ensures ShortCode(RsvpForm.TicketId(firstName, random, i)) == ToUpper("LUM-" + ToUpper(firstName[..4]))
  {
    var id := RsvpForm.TicketId(firstName, random, i);
    var head := "LUM-" + ToUpper(firstName[..4]);
    assert Prefix(firstName, 4) == firstName[..4];
    assert id[..8] == head;
    var code := ShortCode(id);
    var expected := ToUpper(head);
    assert |code| == 8 == |expected|;
    forall k | 0 <= k < 8
      ensures code[k] == expected[k]
    {
      assert id[k] == head[k];
    }
  }

  /** So every card of one registration prints the same code: the code
      called unique on the card does not tell a party's tickets apart (the
      QR carries the whole id). */
  lemma PartyShareShortCode(firstName: string, randoms: seq<string>, i: nat, j: nat)
    requires |firstName| >= 4 && i < j < |randoms|
    ensures var ids := RsvpForm.TicketIds(firstName, randoms);
            ids[i] != ids[j] && ShortCode(ids[i]) == ShortCode(ids[j])
  {
    RsvpForm.TicketIdsDistinct(firstName, randoms);
    ShortCodeOfTicketId(firstName, randoms[i], i);
    ShortCodeOfTicketId(firstName, randoms[j], j);
  }

  /** The confirmation message's fields. */
  datatype Summary = Summary(tierName: string, venueName: string, totalGuests: int)

  function WhatsAppSummary(data: RsvpData): (s: Summary)
    ensures s.totalGuests == 1 + data.guestCount
    ensures s.tierName == (if data.selectedTier.Some? && data.selectedTier.value.name != "" then data.selectedTier.value.name else "General")
    ensures s.venueName == (if data.selectedVenue.Some? && data.selectedVenue.value.name != "" then data.selectedVenue.value.name else "Evento")
  {
    var tier := if data.selectedTier.Some? then data.selectedTier.value.name else "";
    var venue := if data.selectedVenue.Some? then data.selectedVenue.value.name else "";
    Summary(if tier != "" then tier else "General", if venue != "" then venue else "Evento", 1 + data.guestCount)
  }

  /** The message's head count is the number of cards shown for a submission. */
  lemma SummaryCountsCards(data: RsvpData, randoms: seq<string>)
    requires data.isAttending && data.guestCount >= 0
    requires |randoms| == RsvpForm.TicketCount(data.guestCount)
    requires data.ticketIds == Some(RsvpForm.TicketIds(data.firstName, randoms))
    ensures ScreenFor(data).Tickets? && WhatsAppSummary(data).totalGuests == |ScreenFor(data).cards|
  {
    SubmittedTicketsShown(data, randoms);
  }
}
