/** The organiser's panel (`components/AdminPanel.tsx`): the ticket-stock
    split applied on save, the factory reset, the door scanner with its log of
    admitted tickets, the vote tally, and the edits of the guest directory and
    the venue list. The scanner's log (a database table in the app) is a field
    of `TicketScanner`; the other edits produce new lists. */
module AdminPanel {
  import opened Text
  import opened Types
  import UnlockScreen
  import RsvpForm
  import App

  // ---------------------------------------------------------------- stock

  datatype TierStocks = TierStocks(platinum: int, emerald: int, standard: int)

  const PLATINUM_STOCK: int := 5

  /** The stocks written on save: platinum fixed, the rest of the capacity
      split in two with the odd ticket going to standard. */
  function StockPartition(maxCapacity: int): (r: TierStocks)
    ensures r.platinum == PLATINUM_STOCK
    ensures r.emerald >= 0 && r.standard >= 0
    ensures r.emerald + r.standard == (if maxCapacity - PLATINUM_STOCK > 0 then maxCapacity - PLATINUM_STOCK else 0)
    ensures r.standard - r.emerald == 0 || r.standard - r.emerald == 1
  {
    var remaining := if maxCapacity - PLATINUM_STOCK > 0 then maxCapacity - PLATINUM_STOCK else 0;
    var emerald := remaining / 2;
    TierStocks(PLATINUM_STOCK, emerald, remaining - emerald)
  }

  /** From a capacity of five up, the three stocks add up to the capacity. */
  lemma PartitionCoversCapacity(maxCapacity: int)
    requires maxCapacity >= PLATINUM_STOCK
    ensures var r := StockPartition(maxCapacity);
            r.platinum + r.emerald + r.standard == maxCapacity
  {
  }

  /** The stocks a save writes: none that are numbers without a capacity. */
  function SavedStocks(config: EventConfig): (r: Option<TierStocks>)
    ensures r.Some? <==> config.maxCapacity.Some?
    ensures r.Some? ==> r.value == StockPartition(config.maxCapacity.value)
  {
    if config.maxCapacity.Some? then Some(StockPartition(config.maxCapacity.value)) else None
  }

  // ---------------------------------------------------------------- factory reset

  /** The stocks a factory reset writes. */
  const RESET_STOCKS: TierStocks := TierStocks(5, 12, 25)

  /** The reset stocks are the built-in tiers' stocks. */
  lemma ResetStocksAreInitial()
    ensures RESET_STOCKS.platinum == RsvpForm.INITIAL_TIERS[0].stock && RsvpForm.INITIAL_TIERS[0].id == "platinum"
    ensures RESET_STOCKS.emerald == RsvpForm.INITIAL_TIERS[1].stock && RsvpForm.INITIAL_TIERS[1].id == "emerald"
    ensures RESET_STOCKS.standard == RsvpForm.INITIAL_TIERS[2].stock && RsvpForm.INITIAL_TIERS[2].id == "standard"
  {
  }

  /** Every guest back to unused, nothing else changed. */
  function ResetGuests(guests: seq<GuestEntry>): (r: seq<GuestEntry>)
    ensures |r| == |guests|
    ensures forall i :: 0 <= i < |r| ==> r[i] == guests[i].(used := false, usedAt := None)
  {
    seq(|guests|, i requires 0 <= i < |guests| => guests[i].(used := false, usedAt := None))
  }

  /** The result of the reset: aborted when the registrations cannot be read,
      otherwise the directory and stocks to write (registrations and scans are
      deleted). */
  datatype ResetOutcome = ResetAborted | ResetDone(guests: seq<GuestEntry>, stocks: TierStocks)

  function FactoryReset(rsvpsReadable: bool, guests: seq<GuestEntry>): (r: ResetOutcome)
    ensures r.ResetAborted? <==> !rsvpsReadable
    ensures r.ResetDone? ==> r.stocks == RESET_STOCKS && r.guests == ResetGuests(guests)
  {
    if rsvpsReadable then ResetDone(ResetGuests(guests), RESET_STOCKS) else ResetAborted
  }

  /** After a reset every guest can unlock again: ids, names and phones are
      kept, so the directory's uniqueness holds as before. */
  lemma ResetKeepsDirectory(guests: seq<GuestEntry>)
    requires PhonesUnique(guests)
    ensures PhonesUnique(ResetGuests(guests)) && App.GuestsToDelete(guests, ResetGuests(guests)) == []
    ensures forall g :: g in ResetGuests(guests) ==> !g.used && g.usedAt.None?
  {
    var r := ResetGuests(guests);
    forall n | n in guests
      ensures App.HasId(r, n.id)
    {
      var i :| 0 <= i < |guests| && guests[i] == n;
      assert r[i] in r;
    }
    App.NothingToDelete(guests, r);
  }

  // ---------------------------------------------------------------- scanner

  const MSG_NOT_FOUND: string := "Pase No Encontrado"
  const MSG_ALREADY_USED: string := "Pase Ya Utilizado"
  const MSG_ADMITTED: string := "✓ Acceso Permitido"
  const MSG_UNRECORDED: string := "Pase Válido (sin registro)"

  datatype ScanResult = ScanResult(valid: bool, alreadyUsed: bool, data: Option<RsvpData>, message: string)

  predicate HoldsTicket(r: RsvpData, ticket: string) {
    r.ticketIds.Some? && ticket in r.ticketIds.value
  }

  /** `rsvps.find(r => r.ticketIds?.includes(ticket))`. */
  function FindByTicket(rsvps: seq<RsvpData>, ticket: string): (r: Option<RsvpData>)
    ensures r.Some? ==> r.value in rsvps && HoldsTicket(r.value, ticket)
    ensures r.None? ==> forall x :: x in rsvps ==> !HoldsTicket(x, ticket)
    ensures r.Some? ==> exists k :: 0 <= k < |rsvps| && rsvps[k] == r.value
                          && forall j :: 0 <= j < k ==> !HoldsTicket(rsvps[j], ticket)
  {
    if rsvps == [] then None
    else if HoldsTicket(rsvps[0], ticket) then
      assert rsvps[0] == rsvps[0];
      Some(rsvps[0])
    else
      var r := FindByTicket(rsvps[1..], ticket);
      if r.Some? then
        var k :| 0 <= k < |rsvps[1..]| && rsvps[1..][k] == r.value
                 && forall j :: 0 <= j < k ==> !HoldsTicket(rsvps[1..][j], ticket);
        assert rsvps[k + 1] == r.value;
        r
      else r
  }

  /** How the scan's database calls went: they threw, the insert returned an
      error (which the handler does not look at), or they succeeded. */
  datatype ScanDb = DbThrew | InsertRejected | DbOk

  /** One scan: the result, and the log after it. A throw shows the ticket as
      valid but unrecorded; a rejected insert still shows it as admitted, but
      nothing is recorded. */
  function Scan(log: seq<string>, rsvps: seq<RsvpData>, ticket: string, db: ScanDb): (r: (ScanResult, seq<string>))
    ensures FindByTicket(rsvps, ticket).None? ==> r.0 == ScanResult(false, false, None, MSG_NOT_FOUND) && r.1 == log
    ensures FindByTicket(rsvps, ticket).Some? ==> r.0.valid && r.0.data == FindByTicket(rsvps, ticket)
    ensures r.0.alreadyUsed <==> FindByTicket(rsvps, ticket).Some? && !db.DbThrew? && ticket in log
    ensures r.1 == (if FindByTicket(rsvps, ticket).Some? && db.DbOk? && ticket !in log then log + [ticket] else log)
    ensures r.0.message == MSG_ADMITTED <==> FindByTicket(rsvps, ticket).Some? && !db.DbThrew? && ticket !in log
    ensures r.0.message == MSG_UNRECORDED <==> FindByTicket(rsvps, ticket).Some? && db.DbThrew?
  {
    var found := FindByTicket(rsvps, ticket);
    if found.None? then (ScanResult(false, false, None, MSG_NOT_FOUND), log)
    else if db.DbThrew? then (ScanResult(true, false, found, MSG_UNRECORDED), log)
    else if ticket in log then (ScanResult(true, true, found, MSG_ALREADY_USED), log)
    else if db.InsertRejected? then (ScanResult(true, false, found, MSG_ADMITTED), log)
    else (ScanResult(true, false, found, MSG_ADMITTED), log + [ticket])
  }

  predicate NoDuplicates(log: seq<string>) {
    forall i, j :: 0 <= i < j < |log| ==> log[i] != log[j]
  }

  /** The log never holds a ticket twice, and every logged ticket belonged to
      a registration when it was scanned. */
  lemma ScanKeepsLogDistinct(log: seq<string>, rsvps: seq<RsvpData>, ticket: string, db: ScanDb)
    requires NoDuplicates(log)
    ensures NoDuplicates(Scan(log, rsvps, ticket, db).1)
    ensures forall t :: t in Scan(log, rsvps, ticket, db).1 && t !in log ==>
              t == ticket && exists x :: x in rsvps && HoldsTicket(x, ticket)
  {
  }

  /** A ticket admitted once is reported as used on every later scan that
      reaches the database, while the registrations still hold it. */
  lemma SecondScanReportsUsed(log: seq<string>, rsvps: seq<RsvpData>, ticket: string, later: seq<RsvpData>)
    requires Scan(log, rsvps, ticket, DbOk).0.message == MSG_ADMITTED
    requires FindByTicket(later, ticket).Some?
    ensures var again := Scan(Scan(log, rsvps, ticket, DbOk).1, later, ticket, DbOk);
            again.0.valid && again.0.alreadyUsed && again.0.message == MSG_ALREADY_USED
            && again.1 == Scan(log, rsvps, ticket, DbOk).1
  {
    assert ticket in Scan(log, rsvps, ticket, DbOk).1;
  }

  /** A rejected insert shows the ticket as admitted without recording it, so
      the next scan that reaches the database admits the same ticket again. */
  lemma RejectedInsertAdmitsTwice(log: seq<string>, rsvps: seq<RsvpData>, ticket: string)
    requires FindByTicket(rsvps, ticket).Some? && ticket !in log
    ensures var first := Scan(log, rsvps, ticket, InsertRejected);
            first.0.message == MSG_ADMITTED && first.1 == log
            && Scan(first.1, rsvps, ticket, DbOk).0.message == MSG_ADMITTED
            && !Scan(first.1, rsvps, ticket, DbOk).0.alreadyUsed
  {
  }

  /** The door scanner: the log of admitted tickets and the last result. */
  class TicketScanner {
    var scanLog: seq<string>
    var scanResult: Option<ScanResult>

    ghost predicate Valid()
      reads this
    {
      NoDuplicates(scanLog)
    }

    constructor(log: seq<string>)
      requires NoDuplicates(log)
      ensures Valid() && scanLog == log && scanResult.None?
    {
      scanLog := log;
      scanResult := None;
    }

    /** A decoded QR text against the current registrations. */
    method HandleQrResult(decoded: string, rsvps: seq<RsvpData>, db: ScanDb)
      requires Valid()
      modifies this
      ensures Valid()
      ensures scanResult == Some(Scan(old(scanLog), rsvps, decoded, db).0)
      ensures scanLog == Scan(old(scanLog), rsvps, decoded, db).1
    {
      ScanKeepsLogDistinct(scanLog, rsvps, decoded, db);
      var found := FindByTicket(rsvps, decoded);
      if found.None? {
        scanResult := Some(ScanResult(false, false, None, MSG_NOT_FOUND));
        return;
      }
      if db.DbThrew? {
        scanResult := Some(ScanResult(true, false, found, MSG_UNRECORDED));
        return;
      }
      if decoded in scanLog {
        scanResult := Some(ScanResult(true, true, found, MSG_ALREADY_USED));
        return;
      }
      if db.DbOk? {
        scanLog := scanLog + [decoded];
      }
      scanResult := Some(ScanResult(true, false, found, MSG_ADMITTED));
    }

    /** The factory reset's step that deletes the scan records: only when the
        query listing them answered; otherwise they stay. */
    method ClearScans(listed: bool)
      requires Valid()
      modifies this
      ensures Valid() && scanLog == (if listed then [] else old(scanLog)) && scanResult == old(scanResult)
    {
      if listed {
        scanLog := [];
      }
    }
  }

  // ---------------------------------------------------------------- tallies

  /** The venue ids voted for by the first `n` registrations, in order. */
  function VotesUpTo(rsvps: seq<RsvpData>, n: nat): (v: seq<string>)
    requires n <= |rsvps|
    ensures |v| <= n
  {
    if n == 0 then []
    else
      var last := rsvps[n - 1];
      VotesUpTo(rsvps, n - 1) + (if last.selectedVenue.Some? then [last.selectedVenue.value.id] else [])
  }

  /** The venue ids voted for, in registration order. */
  function Votes(rsvps: seq<RsvpData>): (v: seq<string>)
    ensures |v| <= |rsvps|
  {
    VotesUpTo(rsvps, |rsvps|)
  }

  /** The registrations with a venue: the panel's "votes emitted". */
  lemma VotesAreRegistrationsWithVenue(rsvps: seq<RsvpData>)
    ensures |Votes(rsvps)| == |set i | 0 <= i < |rsvps| && rsvps[i].selectedVenue.Some?|
  {
    VotesUpToCount(rsvps, |rsvps|);
  }

  lemma {:induction false} VotesUpToCount(rsvps: seq<RsvpData>, n: nat)
    requires n <= |rsvps|
    ensures |VotesUpTo(rsvps, n)| == |set i | 0 <= i < n && rsvps[i].selectedVenue.Some?|
  {
    if n > 0 {
      VotesUpToCount(rsvps, n - 1);
      var before := set i | 0 <= i < n - 1 && rsvps[i].selectedVenue.Some?;
      var all := set i | 0 <= i < n && rsvps[i].selectedVenue.Some?;
      if rsvps[n - 1].selectedVenue.Some? {
        assert all == before + {n - 1};
      } else {
        assert all == before;
      }
    }
  }

  /** Everyone expected: each registrant and their companions. With no
      negative companion counts, the total is at least one per registration
      and at most four when each brings at most three. */
  function TotalPax(rsvps: seq<RsvpData>): (p: int)
    ensures (forall r :: r in rsvps ==> 0 <= r.guestCount <= 3) ==> |rsvps| <= p <= 4 * |rsvps|
  {
    if rsvps == [] then 0
    else
      var n := |rsvps| - 1;
      assert rsvps[n] in rsvps;
      assert forall r :: r in rsvps[..n] ==> r in rsvps;
      TotalPax(rsvps[..n]) + 1 + rsvps[n].guestCount
  }

  /** The running sum splits over two lists joined: `reduce` adds each
      registration once. */
  lemma {:induction false} TotalPaxOfJoin(a: seq<RsvpData>, b: seq<RsvpData>)
    ensures TotalPax(a + b) == TotalPax(a) + TotalPax(b)
    decreases |b|
  {
    if b != [] {
      var n := |b| - 1;
      assert (a + b)[..|a + b| - 1] == a + b[..n];
      TotalPaxOfJoin(a, b[..n]);
    } else {
      assert a + b == a;
    }
  }

  /** The ids in the order they first appear. */
  function FirstSeen(v: seq<string>): (d: seq<string>)
    ensures forall k :: k in d <==> k in v
    ensures NoDuplicates(d)
  {
    if v == [] then []
    else
      var d := FirstSeen(v[..|v| - 1]);
      assert forall k :: k in v <==> k in v[..|v| - 1] || k == v[|v| - 1] by {
        assert v == v[..|v| - 1] + [v[|v| - 1]];
      }
      if v[|v| - 1] in d then d else d + [v[|v| - 1]]
  }

  function Count(v: seq<string>, k: string): nat {
    multiset(v)[k]
  }

  lemma FirstSeenStep(v: seq<string>, x: string)
    ensures FirstSeen(v + [x]) == if x in FirstSeen(v) then FirstSeen(v) else FirstSeen(v) + [x]
  {
    assert (v + [x])[..|v|] == v;
  }

  /** One more vote for `id` on a count map: `counts[id] = (counts[id] || 0) + 1`. */
  function Bump(counts: map<string, nat>, id: string): map<string, nat> {
    counts[id := (if id in counts then counts[id] else 0) + 1]
  }

  /** Counting one more vote. */
  lemma BumpCount(counts: map<string, nat>, votes: seq<string>, id: string)
    requires forall k :: k in counts <==> k in votes
    requires forall k :: k in counts ==> counts[k] == Count(votes, k)
    ensures forall k :: k in Bump(counts, id) <==> k in votes + [id]
    ensures forall k :: k in Bump(counts, id) ==> Bump(counts, id)[k] == Count(votes + [id], k)
  {
    assert multiset(votes + [id]) == multiset(votes) + multiset{id};
    if id !in counts {
      assert Count(votes, id) == 0;
    }
  }

  /** The counts after the first `n` registrations. */
  function CountsUpTo(rsvps: seq<RsvpData>, n: nat): map<string, nat>
    requires n <= |rsvps|
  {
    if n == 0 then map[]
    else if rsvps[n - 1].selectedVenue.Some? then Bump(CountsUpTo(rsvps, n - 1), rsvps[n - 1].selectedVenue.value.id)
    else CountsUpTo(rsvps, n - 1)
  }

  /** The counts hold one entry per voted id, each the number of its votes. */
  lemma {:induction false} CountsUpToCount(rsvps: seq<RsvpData>, n: nat)
    requires n <= |rsvps|
    ensures forall k :: k in CountsUpTo(rsvps, n) <==> k in VotesUpTo(rsvps, n)
    ensures forall k :: k in CountsUpTo(rsvps, n) ==> CountsUpTo(rsvps, n)[k] == Count(VotesUpTo(rsvps, n), k)
  {
    if n > 0 {
      CountsUpToCount(rsvps, n - 1);
      var votes := VotesUpTo(rsvps, n - 1);
      if rsvps[n - 1].selectedVenue.Some? {
        BumpCount(CountsUpTo(rsvps, n - 1), votes, rsvps[n - 1].selectedVenue.value.id);
      } else {
        assert VotesUpTo(rsvps, n) == votes + [] == votes;
      }
    }
  }

  /** The voted ids of the first `n` registrations, each once, in the order of
      their first vote. */
  function KeysUpTo(rsvps: seq<RsvpData>, n: nat): seq<string>
    requires n <= |rsvps|
  {
    if n == 0 then []
    else
      var d := KeysUpTo(rsvps, n - 1);
      if rsvps[n - 1].selectedVenue.Some? && rsvps[n - 1].selectedVenue.value.id !in d
      then d + [rsvps[n - 1].selectedVenue.value.id]
      else d
  }

  /** The keys gathered one registration at a time are the first-seen order
      of the votes. */
  lemma {:induction false} KeysUpToFirstSeen(rsvps: seq<RsvpData>, n: nat)
    requires n <= |rsvps|
    ensures KeysUpTo(rsvps, n) == FirstSeen(VotesUpTo(rsvps, n))
  {
    if n > 0 {
      var v, d := VotesUpTo(rsvps, n - 1), KeysUpTo(rsvps, n - 1);
      KeysUpToFirstSeen(rsvps, n - 1);
      if rsvps[n - 1].selectedVenue.Some? {
        var id := rsvps[n - 1].selectedVenue.value.id;
        calc {
          KeysUpTo(rsvps, n);
          if id in d then d else d + [id];
          if id in FirstSeen(v) then FirstSeen(v) else FirstSeen(v) + [id];
        == { FirstSeenStep(v, id); }
          FirstSeen(v + [id]);
        == { assert VotesUpTo(rsvps, n) == v + [id]; }
          FirstSeen(VotesUpTo(rsvps, n));
        }
      } else {
        calc {
          KeysUpTo(rsvps, n);
          d;
          FirstSeen(v);
        == { assert VotesUpTo(rsvps, n) == v + [] == v; }
          FirstSeen(VotesUpTo(rsvps, n));
        }
      }
    }
  }

  /** After every registration, the keys are the voted ids in first-vote
      order and each count is the number of votes for its id. */
  lemma TallyComplete(rsvps: seq<RsvpData>)
    ensures KeysUpTo(rsvps, |rsvps|) == FirstSeen(Votes(rsvps))
    ensures var c := CountsUpTo(rsvps, |rsvps|);
            (forall k :: k in c <==> k in FirstSeen(Votes(rsvps)))
            && forall k :: k in c ==> c[k] == Count(Votes(rsvps), k)
  {
    KeysUpToFirstSeen(rsvps, |rsvps|);
    CountsUpToCount(rsvps, |rsvps|);
  }

  /** The tally's first pass: a count per venue id, keys in first-vote order. */
  method Tally(rsvps: seq<RsvpData>) returns (counts: map<string, nat>, keys: seq<string>)
    ensures keys == FirstSeen(Votes(rsvps))
    ensures forall k :: k in counts <==> k in keys
    ensures forall k :: k in counts ==> counts[k] == Count(Votes(rsvps), k)
  {
    counts := map[];
    keys := [];
    var i := 0;
    while i < |rsvps|
      invariant 0 <= i <= |rsvps|
      invariant counts == CountsUpTo(rsvps, i)
      invariant keys == KeysUpTo(rsvps, i)
    {
      if rsvps[i].selectedVenue.Some? {
        var id := rsvps[i].selectedVenue.value.id;
        counts := Bump(counts, id);
        keys := if id in keys then keys else keys + [id];
      }
      i := i + 1;
    }
    TallyComplete(rsvps);
  }

  /** The tally's second pass: the first key with the largest count, which
      is the head of the entries after the stable sort by decreasing count. */
  method FirstMostCounted(keys: seq<string>, counts: map<string, nat>) returns (best: nat)
    requires |keys| > 0 && forall k :: k in keys ==> k in counts
    ensures best < |keys|
    ensures forall t :: 0 <= t < |keys| ==> counts[keys[t]] <= counts[keys[best]]
    ensures forall t :: 0 <= t < best ==> counts[keys[t]] < counts[keys[best]]
  {
    best := 0;
    var j := 1;
    while j < |keys|
      invariant 1 <= j <= |keys| && 0 <= best < j
      invariant forall t :: 0 <= t < j ==> counts[keys[t]] <= counts[keys[best]]
      invariant forall t :: 0 <= t < best ==> counts[keys[t]] < counts[keys[best]]
    {
      if counts[keys[j]] > counts[keys[best]] {
        best := j;
      }
      j := j + 1;
    }
  }

  /** `getVenueWithMostVotes`: nothing without votes; otherwise a most-voted
      venue id, the one first voted for among those tied (the tally's keys in
      insertion order, sorted stably by count). */
  method GetVenueWithMostVotes(rsvps: seq<RsvpData>) returns (winner: Option<string>)
    ensures winner.None? <==> Votes(rsvps) == []
    ensures winner.Some? ==> winner.value in Votes(rsvps)
    ensures winner.Some? ==> forall k :: k in Votes(rsvps) ==> Count(Votes(rsvps), k) <= Count(Votes(rsvps), winner.value)
    ensures winner.Some? ==>
              exists j :: 0 <= j < |FirstSeen(Votes(rsvps))| && FirstSeen(Votes(rsvps))[j] == winner.value
                          && forall t :: 0 <= t < j ==>
                               Count(Votes(rsvps), FirstSeen(Votes(rsvps))[t]) < Count(Votes(rsvps), winner.value)
  {
    var counts, keys := Tally(rsvps);
    if |keys| == 0 {
      assert forall k :: k !in Votes(rsvps);
      return None;
    }
    var best := FirstMostCounted(keys, counts);
    winner := Some(keys[best]);
    forall k | k in Votes(rsvps)
      ensures Count(Votes(rsvps), k) <= Count(Votes(rsvps), keys[best])
    {
      var t :| 0 <= t < |keys| && keys[t] == k;
    }
  }

  // ---------------------------------------------------------------- guests

  datatype AddRejection = InvalidEntry | DuplicatePhone

  datatype AddResult = Rejected(reason: AddRejection) | Added(guests: seq<GuestEntry>)

  /** The add-guest form: a non-blank name and a mobile number (after
      dropping every non-digit) not already in the directory. */
  function AddGuest(guests: seq<GuestEntry>, nameInput: string, phoneInput: string, newId: string): (r: AddResult)
    ensures r == Rejected(InvalidEntry) <==>
              Trim(nameInput) == [] || !UnlockScreen.PhonePattern(KeepDigits(Trim(phoneInput)))
    ensures r == Rejected(DuplicatePhone) <==>
              Trim(nameInput) != [] && UnlockScreen.PhonePattern(KeepDigits(Trim(phoneInput)))
              && exists g :: g in guests && g.phone == KeepDigits(Trim(phoneInput))
    ensures r.Added? ==>
              r.guests == guests + [GuestEntry(newId, Trim(nameInput), KeepDigits(Trim(phoneInput)), false, None)]
              && UnlockScreen.PhonePattern(r.guests[|guests|].phone)
  {
    var name := Trim(nameInput);
    var phone := KeepDigits(Trim(phoneInput));
    if name == [] || !UnlockScreen.PhonePattern(phone) then Rejected(InvalidEntry)
    else if exists g :: g in guests && g.phone == phone then Rejected(DuplicatePhone)
    else Added(guests + [GuestEntry(newId, name, phone, false, None)])
  }

  /** Adding keeps the directory's phones distinct, and the directory write
      that follows deletes nobody. */
  lemma AddKeepsPhonesUnique(guests: seq<GuestEntry>, nameInput: string, phoneInput: string, newId: string)
    requires PhonesUnique(guests)
    ensures AddGuest(guests, nameInput, phoneInput, newId).Added? ==>
              PhonesUnique(AddGuest(guests, nameInput, phoneInput, newId).guests)
              && App.GuestsToDelete(guests, AddGuest(guests, nameInput, phoneInput, newId).guests) == []
  {
    var r := AddGuest(guests, nameInput, phoneInput, newId);
    if r.Added? {
      forall n | n in guests
        ensures App.HasId(r.guests, n.id)
      {
        assert n in r.guests;
      }
      App.NothingToDelete(guests, r.guests);
      forall i | 0 <= i < |guests|
        ensures r.guests[i].phone != r.guests[|guests|].phone
      {
        assert guests[i] in guests;
      }
    }
  }

  /** Restoring access: the guest with that id is unused again. */
  function RestoreGuest(guests: seq<GuestEntry>, id: string): (r: seq<GuestEntry>)
    ensures |r| == |guests|
    ensures forall i :: 0 <= i < |guests| ==>
              r[i] == if guests[i].id == id then guests[i].(used := false, usedAt := None) else guests[i]
  {
    seq(|guests|, i requires 0 <= i < |guests| =>
          if guests[i].id == id then guests[i].(used := false, usedAt := None) else guests[i])
  }

  /** Restoring undoes unlocking: marking a guest used and then restoring it
      gives back the directory, when that guest was unused. */
  lemma RestoreUndoesUnlock(guests: seq<GuestEntry>, id: string, now: int)
    requires forall g :: g in guests && g.id == id ==> !g.used && g.usedAt.None?
    ensures RestoreGuest(App.MarkUsed(guests, id, now), id) == guests
  {
    var r := RestoreGuest(App.MarkUsed(guests, id, now), id);
    forall i | 0 <= i < |guests|
      ensures r[i] == guests[i]
    {
      assert guests[i] in guests;
    }
  }

  /** `list.filter(x => x.id !== id)`, for any record with an id: every entry
      with that id goes, the others stay in order (`DeleteByIdMembers`,
      `DeleteByIdOfJoin`, `DeleteByIdCutsOne`). */
  function DeleteById<T>(xs: seq<T>, idOf: T -> string, id: string): (r: seq<T>)
    ensures |r| <= |xs|
    ensures (forall k :: 0 <= k < |xs| ==> idOf(xs[k]) != id) ==> r == xs
  {
    if xs == [] then []
    else (if idOf(xs[0]) == id then [] else [xs[0]]) + DeleteById(xs[1..], idOf, id)
  }

  /** Exactly the entries with another id are kept. */
  lemma {:induction false} DeleteByIdMembers<T>(xs: seq<T>, idOf: T -> string, id: string)
    ensures forall x :: x in DeleteById(xs, idOf, id) <==> x in xs && idOf(x) != id
  {
    if xs != [] {
      DeleteByIdMembers(xs[1..], idOf, id);
      assert xs == [xs[0]] + xs[1..];
    }
  }

  /** Deleting works piece by piece, so the kept entries keep their order and
      their number of copies. */
  lemma {:induction false} DeleteByIdOfJoin<T>(a: seq<T>, b: seq<T>, idOf: T -> string, id: string)
    ensures DeleteById(a + b, idOf, id) == DeleteById(a, idOf, id) + DeleteById(b, idOf, id)
  {
    if a == [] {
      assert a + b == b;
    } else {
      var head := if idOf(a[0]) == id then [] else [a[0]];
      calc {
        DeleteById(a + b, idOf, id);
      == { assert (a + b)[0] == a[0]; assert (a + b)[1..] == a[1..] + b; }
        head + DeleteById(a[1..] + b, idOf, id);
      == { DeleteByIdOfJoin(a[1..], b, idOf, id); }
        head + (DeleteById(a[1..], idOf, id) + DeleteById(b, idOf, id));
      ==
        DeleteById(a, idOf, id) + DeleteById(b, idOf, id);
      }
    }
  }

  /** When no other entry shares its id, deleting the entry at `k` is cutting
      position `k` out. */
  lemma {:induction false} DeleteByIdCutsOne<T>(xs: seq<T>, idOf: T -> string, k: int)
    requires 0 <= k < |xs|
    requires forall j :: 0 <= j < |xs| && j != k ==> idOf(xs[j]) != idOf(xs[k])
    ensures DeleteById(xs, idOf, idOf(xs[k])) == xs[..k] + xs[k + 1..]
  {
    var id := idOf(xs[k]);
    if k == 0 {
      assert forall j :: 0 <= j < |xs[1..]| ==> xs[1..][j] == xs[j + 1];
      assert DeleteById(xs[1..], idOf, id) == xs[1..];
    } else {
      var rest := xs[1..];
      assert forall j :: 0 <= j < |rest| ==> rest[j] == xs[j + 1];
      calc {
        DeleteById(xs, idOf, id);
      == { assert idOf(xs[0]) != id; }
        [xs[0]] + DeleteById(rest, idOf, id);
      == { DeleteByIdCutsOne(rest, idOf, k - 1); }
        [xs[0]] + (rest[..k - 1] + rest[k..]);
      ==
        ([xs[0]] + rest[..k - 1]) + rest[k..];
      == { assert xs[..k] == [xs[0]] + rest[..k - 1]; assert xs[k + 1..] == rest[k..]; }
        xs[..k] + xs[k + 1..];
      }
    }
  }

  function GuestId(g: GuestEntry): string { g.id }

  /** Deleting a guest from the directory. */
  function DeleteGuest(guests: seq<GuestEntry>, id: string): seq<GuestEntry> {
    DeleteById(guests, GuestId, id)
  }

  /** Deleting a guest makes the directory write delete exactly that id,
      when the ids are unique. */
  lemma DeleteDiff(guests: seq<GuestEntry>, id: string)
    requires App.IdsUnique(guests)
    ensures App.GuestsToDelete(guests, DeleteGuest(guests, id)) == if App.HasId(guests, id) then [id] else []
  {
    DeleteByIdMembers(guests, GuestId, id);
    DiffOfOneRemoval(guests, DeleteGuest(guests, id), id);
  }

  /** The diff against a list that lost exactly one id. */
  lemma {:induction false} DiffOfOneRemoval(oldList: seq<GuestEntry>, newList: seq<GuestEntry>, id: string)
    requires App.IdsUnique(oldList)
    requires forall n :: n in oldList && n.id != id ==> App.HasId(newList, n.id)
    requires !App.HasId(newList, id)
    ensures App.GuestsToDelete(oldList, newList) == if App.HasId(oldList, id) then [id] else []
  {
    if oldList != [] {
      var tail := oldList[1..];
      assert App.IdsUnique(tail) by {
        forall a, b | 0 <= a < b < |tail|
          ensures tail[a].id != tail[b].id
        {
          assert tail[a] == oldList[a + 1] && tail[b] == oldList[b + 1];
        }
      }
      assert oldList[0] in oldList;
      if oldList[0].id == id {
        forall n | n in tail
          ensures App.HasId(newList, n.id)
        {
          var k :| 0 <= k < |tail| && tail[k] == n;
          assert oldList[k + 1] == n;
        }
        App.NothingToDelete(tail, newList);
      } else {
        DiffOfOneRemoval(tail, newList, id);
        if App.HasId(oldList, id) {
          var n :| n in oldList && n.id == id;
          var k :| 0 <= k < |oldList| && oldList[k] == n;
          assert tail[k - 1] == n;
        }
      }
    }
  }

  /** Deleting and restoring keep the directory's phones distinct. */
  lemma EditsKeepPhonesUnique(guests: seq<GuestEntry>, id: string)
    requires PhonesUnique(guests)
    ensures PhonesUnique(RestoreGuest(guests, id))
    ensures PhonesUnique(DeleteGuest(guests, id))
  {
    DeleteKeepsPhonesUnique(guests, id);
  }

  lemma {:induction false} DeleteKeepsPhonesUnique(guests: seq<GuestEntry>, id: string)
    requires PhonesUnique(guests)
    ensures PhonesUnique(DeleteGuest(guests, id))
  {
    if guests != [] {
      var tail := guests[1..];
      assert PhonesUnique(tail) by {
        forall a, b | 0 <= a < b < |tail|
          ensures tail[a].phone != tail[b].phone
        {
          assert tail[a] == guests[a + 1] && tail[b] == guests[b + 1];
        }
      }
      DeleteKeepsPhonesUnique(tail, id);
      DeleteByIdMembers(tail, GuestId, id);
      var rest := DeleteGuest(tail, id);
      forall n | n in rest
        ensures n.phone != guests[0].phone
      {
        var k :| 0 <= k < |tail| && tail[k] == n;
        assert guests[k + 1] == n;
      }
    }
  }

  // ---------------------------------------------------------------- venues

  const PALETTE: seq<string> := [
    "from-indigo-500 to-blue-500", "from-fuchsia-600 to-purple-600", "from-orange-500 to-amber-500",
    "from-emerald-500 to-teal-500", "from-rose-500 to-pink-500", "from-cyan-500 to-sky-500"
  ]

  /** A new venue with placeholder texts, coloured by the list's length. */
  function AddVenue(venues: seq<VenueOption>, newId: string): (r: seq<VenueOption>)
    ensures |r| == |venues| + 1 && r[..|venues|] == venues
    ensures r[|venues|].id == newId && r[|venues|].color == PALETTE[|venues| % 6]
  {
    venues + [VenueOption(newId, "Nuevo Ambiente", "Describe el vibe", "S/ 0", "03:00 AM",
                          "Descripción del ambiente", ["Característica 1"], PALETTE[|venues| % |PALETTE|],
                          Some(""), Some(""))]
  }

  function VenueId(v: VenueOption): string { v.id }

  /** Removing a venue from the list being edited. */
  function DeleteVenue(venues: seq<VenueOption>, id: string): seq<VenueOption> {
    DeleteById(venues, VenueId, id)
  }
}
