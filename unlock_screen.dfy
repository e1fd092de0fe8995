/** The lock screen (`components/UnlockScreen.tsx`): a guest types a phone
    number, the number is looked up in the guest directory, failed lookups are
    counted and, at five, verification is refused for five minutes; the admin
    signs in with the configured credentials.

    The session is a value `Session` with one pure step function per event, and
    the class `UnlockScreen` holds the same state in fields whose methods apply
    those steps. The clock is the parameter `now` (milliseconds). */
module UnlockScreen {
  import opened Text
  import opened Types

  const RATE_LIMIT_MAX: nat := 5
  const RATE_LIMIT_COOLDOWN: nat := 5 * 60 * 1000

  datatype VerificationState = Idle | Found | NotFound

  /** The state of the lock screen that the phone check reads and writes. */
  datatype Session = Session(
    phoneInput: string,
    verificationState: VerificationState,
    matchedGuest: Option<GuestEntry>,
    failedAttempts: nat,
    lockedUntil: Option<int>)

  const InitialSession: Session := Session("", Idle, None, 0, None)

  /** `/^9\d{8}$/`: nine digits, the first a 9. */
  predicate PhonePattern(s: string) {
    |s| == 9 && s[0] == '9' && AllDigits(s)
  }

  /** The typed number, trimmed, is a mobile number. */
  predicate IsPhoneValid(phoneInput: string) {
    PhonePattern(Trim(phoneInput))
  }

  /** Verification is refused while the lock time lies in the future. */
  predicate IsRateLimited(lockedUntil: Option<int>, now: int) {
    lockedUntil.Some? && now < lockedUntil.value
  }

  /** A lock only runs out: limited at some time means limited at every
      earlier time, and it ends at its deadline. */
  lemma RateLimitRunsOut(lockedUntil: Option<int>, now: int, later: int)
    requires now <= later
    ensures IsRateLimited(lockedUntil, later) ==> IsRateLimited(lockedUntil, now)
    ensures lockedUntil.Some? && lockedUntil.value <= later ==> !IsRateLimited(lockedUntil, later)
  {
  }

  predicate IsGuestVerified(s: Session) {
    s.verificationState == Found && s.matchedGuest.Some?
  }

  /** `guestList.find(g => g.phone === phone)`. */
  function FindGuestByPhone(guests: seq<GuestEntry>, phone: string): (r: Option<GuestEntry>)
    ensures r.Some? ==> r.value in guests && r.value.phone == phone
    ensures r.None? <==> forall g :: g in guests ==> g.phone != phone
    ensures r.Some? ==> exists k :: 0 <= k < |guests| && guests[k] == r.value
                          && forall j :: 0 <= j < k ==> guests[j].phone != phone
  {
    if guests == [] then None
    else if guests[0].phone == phone then
      assert guests[0] == guests[0];
      Some(guests[0])
    else
      var r := FindGuestByPhone(guests[1..], phone);
      if r.Some? then
        var k :| 0 <= k < |guests[1..]| && guests[1..][k] == r.value
                 && forall j :: 0 <= j < k ==> guests[1..][j].phone != phone;
        assert guests[k + 1] == r.value;
        r
      else r
  }

  /** Pressing verify: refused (nothing changes) when the number is malformed or
      the session is locked; otherwise the directory is searched, a hit marks the
      guest verified and a miss counts one failure, locking the session for the
      cooldown once the count reaches the limit. */
  function Verify(s: Session, guests: seq<GuestEntry>, now: int): (r: Session)
    ensures r.phoneInput == s.phoneInput
    ensures !IsPhoneValid(s.phoneInput) || IsRateLimited(s.lockedUntil, now) ==> r == s
    ensures IsPhoneValid(s.phoneInput) && !IsRateLimited(s.lockedUntil, now)
            && FindGuestByPhone(guests, Trim(s.phoneInput)).Some? ==>
              r.verificationState == Found && r.matchedGuest == FindGuestByPhone(guests, Trim(s.phoneInput))
    ensures IsGuestVerified(r) && r != s ==>
              r.matchedGuest.value in guests && r.matchedGuest.value.phone == Trim(s.phoneInput)
              && r.failedAttempts == s.failedAttempts && r.lockedUntil == s.lockedUntil
    ensures r.failedAttempts == s.failedAttempts + 1 <==>
              IsPhoneValid(s.phoneInput) && !IsRateLimited(s.lockedUntil, now)
              && forall g :: g in guests ==> g.phone != Trim(s.phoneInput)
    ensures r.failedAttempts != s.failedAttempts + 1 ==> r.failedAttempts == s.failedAttempts
    ensures r.failedAttempts == s.failedAttempts + 1 ==>
              r.verificationState == NotFound && r.matchedGuest.None?
    ensures r.lockedUntil != s.lockedUntil ==>
              r.failedAttempts >= RATE_LIMIT_MAX && r.lockedUntil == Some(now + RATE_LIMIT_COOLDOWN)
    ensures r.failedAttempts == s.failedAttempts + 1 ==>
              r.lockedUntil == if r.failedAttempts >= RATE_LIMIT_MAX then Some(now + RATE_LIMIT_COOLDOWN)
                               else s.lockedUntil
  {
    if !IsPhoneValid(s.phoneInput) || IsRateLimited(s.lockedUntil, now) then s
    else Lookup(s, guests, now)
  }

  /** The directory search of a verification that was let through. */
  function Lookup(s: Session, guests: seq<GuestEntry>, now: int): Session {
    match FindGuestByPhone(guests, Trim(s.phoneInput))
    case None =>
      var attempts := s.failedAttempts + 1;
      s.(verificationState := NotFound, matchedGuest := None, failedAttempts := attempts,
         lockedUntil := if attempts >= RATE_LIMIT_MAX then Some(now + RATE_LIMIT_COOLDOWN) else s.lockedUntil)
    case Some(g) =>
      s.(verificationState := Found, matchedGuest := Some(g))
  }

  /** The once-a-second lock timer: an expired lock is lifted together with the
      failure count; an active lock, or no lock, is left alone. */
  function Tick(s: Session, now: int): (r: Session)
    ensures r.phoneInput == s.phoneInput && r.verificationState == s.verificationState
            && r.matchedGuest == s.matchedGuest
    ensures r == s || (r.lockedUntil.None? && r.failedAttempts == 0)
    ensures s.lockedUntil.None? || IsRateLimited(s.lockedUntil, now) ==> r == s
    ensures s.lockedUntil.Some? && !IsRateLimited(s.lockedUntil, now) ==>
              r.lockedUntil.None? && r.failedAttempts == 0
  {
    if s.lockedUntil.Some? && now >= s.lockedUntil.value then
      s.(lockedUntil := None, failedAttempts := 0)
    else s
  }

  /** Typing in the phone field: only digits are kept, at most nine of them, and
      any earlier verdict returns to idle. */
  function EditPhone(s: Session, raw: string): (r: Session)
    ensures AllDigits(r.phoneInput) && r.phoneInput <= KeepDigits(raw)
    ensures |r.phoneInput| == if |KeepDigits(raw)| < 9 then |KeepDigits(raw)| else 9
    ensures r.verificationState == Idle
    ensures r.matchedGuest == s.matchedGuest && r.failedAttempts == s.failedAttempts
            && r.lockedUntil == s.lockedUntil
  {
    s.(phoneInput := Prefix(KeepDigits(raw), 9), verificationState := Idle)
  }

  /** "Change number": the verdict and the number are cleared; the failure
      count and the lock are kept. */
  function ResetVerification(s: Session): (r: Session)
    ensures r.verificationState == Idle && r.matchedGuest.None? && r.phoneInput == []
    ensures r.failedAttempts == s.failedAttempts && r.lockedUntil == s.lockedUntil
  {
    s.(verificationState := Idle, matchedGuest := None, phoneInput := "")
  }

  /** The admin form is accepted only for exactly the configured user and password. */
  predicate AdminLoginAccepted(config: EventConfig, user: string, password: string) {
    config.adminUser == Some(user) && config.adminPassword == Some(password)
  }

  /** The number that can pass verification after an edit is decided by the
      digits that were typed: at least nine of them, the first a 9. */
  lemma EditedPhoneValid(s: Session, raw: string)
    ensures IsPhoneValid(EditPhone(s, raw).phoneInput) <==>
              |KeepDigits(raw)| >= 9 && KeepDigits(raw)[0] == '9'
  {
    var p := EditPhone(s, raw).phoneInput;
    TrimOfTrimmed(p);
  }

  /** Verifying the exact number of a directory guest, with numbers unique in the
      directory and the session not locked, verifies that guest and leaves the
      failure count alone. */
  lemma VerifyFindsGuest(s: Session, guests: seq<GuestEntry>, g: GuestEntry, now: int)
    requires PhonesUnique(guests) && g in guests && PhonePattern(g.phone)
    requires s.phoneInput == g.phone && !IsRateLimited(s.lockedUntil, now)
    ensures Verify(s, guests, now).verificationState == Found
    ensures Verify(s, guests, now).matchedGuest == Some(g)
    ensures Verify(s, guests, now).failedAttempts == s.failedAttempts
  {
    TrimOfTrimmed(g.phone);
    assert IsPhoneValid(s.phoneInput);
    FindUniquePhone(guests, g);
  }

  /** With unique numbers, the search by a guest's number finds that guest. */
  lemma {:induction false} FindUniquePhone(guests: seq<GuestEntry>, g: GuestEntry)
    requires PhonesUnique(guests) && g in guests
    ensures FindGuestByPhone(guests, g.phone) == Some(g)
  {
    if guests[0] != g {
      assert guests[1..] == guests[1..];
      var i :| 0 <= i < |guests| && guests[i] == g;
      assert i > 0 && guests[0].phone != guests[i].phone;
      assert g in guests[1..] by { assert guests[1..][i - 1] == g; }
      FindUniquePhone(guests[1..], g);
    }
  }

  /** A run of verifications of the same number, one at each of `times`. */
  function VerifyRun(s: Session, guests: seq<GuestEntry>, times: seq<int>): Session
    decreases |times|
  {
    if times == [] then s else VerifyRun(Verify(s, guests, times[0]), guests, times[1..])
  }

  /** Misses accumulate one by one; the session stays open until the fifth, and
      the fifth locks it for the cooldown counted from the time of that miss. */
  lemma {:induction false} MissRun(s: Session, guests: seq<GuestEntry>, times: seq<int>)
    requires IsPhoneValid(s.phoneInput)
    requires forall g :: g in guests ==> g.phone != Trim(s.phoneInput)
    requires s.lockedUntil.None? && |times| > 0 && s.failedAttempts + |times| <= RATE_LIMIT_MAX
    ensures VerifyRun(s, guests, times).phoneInput == s.phoneInput
    ensures VerifyRun(s, guests, times).verificationState == NotFound
    ensures VerifyRun(s, guests, times).failedAttempts == s.failedAttempts + |times|
    ensures VerifyRun(s, guests, times).lockedUntil ==
              if s.failedAttempts + |times| == RATE_LIMIT_MAX
              then Some(times[|times| - 1] + RATE_LIMIT_COOLDOWN) else None
    decreases |times|
  {
    var s1 := Verify(s, guests, times[0]);
    assert VerifyRun(s, guests, times) == VerifyRun(s1, guests, times[1..]);
    if |times| > 1 {
      MissRun(s1, guests, times[1..]);
      assert times[1..][|times[1..]| - 1] == times[|times| - 1];
    }
  }

  /** Five misses in a row from a fresh session lock it; until the lock time,
      verifying any number against any directory changes nothing. */
  lemma FiveMissesLock(s: Session, guests: seq<GuestEntry>, times: seq<int>)
    requires IsPhoneValid(s.phoneInput)
    requires forall g :: g in guests ==> g.phone != Trim(s.phoneInput)
    requires s.failedAttempts == 0 && s.lockedUntil.None? && |times| == RATE_LIMIT_MAX
    ensures VerifyRun(s, guests, times).lockedUntil == Some(times[4] + RATE_LIMIT_COOLDOWN)
    ensures forall other: seq<GuestEntry>, t: int :: t < times[4] + RATE_LIMIT_COOLDOWN ==>
              Verify(VerifyRun(s, guests, times), other, t) == VerifyRun(s, guests, times)
  {
    MissRun(s, guests, times);
  }

  /** The lock is lifted by the first timer tick at or after the lock time, and
      a fresh count starts: four more misses do not lock the session again. */
  lemma ExpiredLockResets(s: Session, guests: seq<GuestEntry>, now: int, times: seq<int>)
    requires s.lockedUntil.Some? && now >= s.lockedUntil.value
    requires IsPhoneValid(s.phoneInput)
    requires forall g :: g in guests ==> g.phone != Trim(s.phoneInput)
    requires 0 < |times| < RATE_LIMIT_MAX
    ensures Tick(s, now).failedAttempts == 0
    ensures VerifyRun(Tick(s, now), guests, times).lockedUntil.None?
  {
    MissRun(Tick(s, now), guests, times);
  }

  /** `Math.max(0, Math.ceil((lockedUntil - now) / 1000))`: whole seconds left,
      rounded up. */
  function RemainingSeconds(lockedUntil: int, now: int): (r: nat)
    ensures r == 0 <==> lockedUntil <= now
    ensures 1000 * r >= lockedUntil - now
    ensures r > 0 ==> 1000 * (r - 1) < lockedUntil - now
  {
    if lockedUntil - now <= 0 then 0 else (lockedUntil - now + 999) / 1000
  }

  /** `m:ss` for a number of seconds. */
  function Clock(seconds: nat): string {
    NatToString(seconds / 60) + ":" + PadStart2(NatToString(seconds % 60))
  }

  /** The countdown shown while locked; empty when there is no lock time. */
  function RemainingLockTime(lockedUntil: Option<int>, now: int): (r: string)
    ensures r == "" <==> lockedUntil.None? || lockedUntil.value == 0
    ensures r != "" ==> r == Clock(RemainingSeconds(lockedUntil.value, now))
  {
    if lockedUntil.None? || lockedUntil.value == 0 then ""
    else Clock(RemainingSeconds(lockedUntil.value, now))
  }

  lemma SmallNatToString(n: nat)
    requires n < 100
    ensures |NatToString(n)| == if n < 10 then 1 else 2
  {
    if n >= 10 {
      assert NatToString(n) == NatToString(n / 10) + [DigitChar(n % 10)];
    }
  }

  /** The countdown reads back as the seconds left: minutes, a colon and exactly
      two digits of seconds below 60. */
  lemma ClockReadsBack(seconds: nat)
    ensures var t := Clock(seconds);
            |t| >= 4 && t[|t| - 3] == ':' && AllDigits(t[..|t| - 3]) && AllDigits(t[|t| - 2..])
            && ParseNat(t[|t| - 2..]) < 60
            && 60 * ParseNat(t[..|t| - 3]) + ParseNat(t[|t| - 2..]) == seconds
  {
    var m := NatToString(seconds / 60);
    var d := NatToString(seconds % 60);
    var ss := PadStart2(d);
    var t := Clock(seconds);
    SmallNatToString(seconds % 60);
    assert |ss| == 2;
    assert t[..|t| - 3] == m;
    assert t[|t| - 2..] == ss;
    ParseNatToString(seconds / 60);
    ParseNatToString(seconds % 60);
    if seconds % 60 < 10 {
      assert ss == "0" + d;
      assert ss[..1] == "0";
      assert ParseNat(ss) == 10 * ParseNat("0") + DigitValue(d[0]);
      assert ParseNat(d) == 10 * ParseNat([]) + DigitValue(d[0]);
    } else {
      assert ss == d;
    }
  }

  /** The lock screen's state, updated in place by its event handlers. */
  class UnlockScreen {
    var phoneInput: string
    var verificationState: VerificationState
    var matchedGuest: Option<GuestEntry>
    var failedAttempts: nat
    var lockedUntil: Option<int>
    var adminError: bool

    function State(): Session
      reads this
    {
      Session(phoneInput, verificationState, matchedGuest, failedAttempts, lockedUntil)
    }

    constructor()
      ensures State() == InitialSession && !adminError
    {
      phoneInput := "";
      verificationState := Idle;
      matchedGuest := None;
      failedAttempts := 0;
      lockedUntil := None;
      adminError := false;
    }

    method OnPhoneChange(raw: string)
      modifies this
      ensures State() == EditPhone(old(State()), raw) && adminError == old(adminError)
    {
      phoneInput := Prefix(KeepDigits(raw), 9);
      if verificationState != Idle {
        verificationState := Idle;
      }
    }

    method HandlePhoneVerify(guestList: seq<GuestEntry>, now: int)
      modifies this
      ensures State() == Verify(old(State()), guestList, now) && adminError == old(adminError)
    {
      if !IsPhoneValid(phoneInput) || IsRateLimited(lockedUntil, now) {
        return;
      }
      var cleanPhone := Trim(phoneInput);
      var found := FindGuestByPhone(guestList, cleanPhone);
      if found.None? {
        verificationState := NotFound;
        matchedGuest := None;
        var newAttempts := failedAttempts + 1;
        failedAttempts := newAttempts;
        if newAttempts >= RATE_LIMIT_MAX {
          lockedUntil := Some(now + RATE_LIMIT_COOLDOWN);
        }
      } else {
        verificationState := Found;
        matchedGuest := found;
      }
    }

    method OnTimerTick(now: int)
      modifies this
      ensures State() == Tick(old(State()), now) && adminError == old(adminError)
    {
      if lockedUntil.Some? && now >= lockedUntil.value {
        lockedUntil := None;
        failedAttempts := 0;
      }
    }

    method HandleResetVerification()
      modifies this
      ensures State() == ResetVerification(old(State())) && adminError == old(adminError)
    {
      verificationState := Idle;
      matchedGuest := None;
      phoneInput := "";
    }

    /** Returns whether the admin panel opens; a rejected attempt raises the
        error flag (its three-second reset is a timer outside this model). */
    method HandleAdminLogin(config: EventConfig, user: string, password: string) returns (enter: bool)
      modifies this
      ensures enter <==> AdminLoginAccepted(config, user, password)
      ensures adminError == (old(adminError) || !enter)
      ensures State() == old(State())
    {
      enter := config.adminUser == Some(user) && config.adminPassword == Some(password);
      if !enter {
        adminError := true;
      }
    }
  }

  /* The lock timer as the component arms it. The interval that lifts the lock
     exists only while the most recent render saw the session locked, and the
     verify handler reads that same render-time flag. React renders again after
     every change of state, and also when the parent re-renders. */

  /** A session together with the lock verdict of its most recent render. */
  datatype RenderedSession = RenderedSession(session: Session, limitedAtRender: bool)

  /** A state change followed by the render it causes (none when nothing changed). */
  function Commit(t: RenderedSession, s: Session, now: int): RenderedSession {
    if s == t.session then t else RenderedSession(s, IsRateLimited(s.lockedUntil, now))
  }

  function RerenderAsWritten(t: RenderedSession, now: int): RenderedSession {
    RenderedSession(t.session, IsRateLimited(t.session.lockedUntil, now))
  }

  function EditPhoneAsWritten(t: RenderedSession, raw: string, now: int): RenderedSession {
    Commit(t, EditPhone(t.session, raw), now)
  }

  /** Verify as written: the lock test is the one taken at the last render. */
  function VerifyAsWritten(t: RenderedSession, guests: seq<GuestEntry>, now: int): (r: RenderedSession)
    ensures t.limitedAtRender ==> r == t
  {
    if !IsPhoneValid(t.session.phoneInput) || t.limitedAtRender then t
    else Commit(t, Lookup(t.session, guests, now), now)
  }

  /** Tick as written: it fires only while the interval is armed. */
  function TickAsWritten(t: RenderedSession, now: int): (r: RenderedSession)
    ensures !t.limitedAtRender ==> r == t
  {
    var limit := if t.session.lockedUntil.Some? then t.session.lockedUntil.value else 0;
    if t.limitedAtRender && now >= limit then
      Commit(t, t.session.(lockedUntil := None, failedAttempts := 0), now)
    else t
  }

  /** A locked session re-rendered at or after its lock time (a keystroke, or
      the parent re-rendering) before the timer fires: the render disarms the
      timer, so no tick lifts the lock, the failure count stays at five and the
      next miss locks the session for another five minutes. The timer of `Tick`
      instead lifts the lock and restarts the count. */
  lemma AsWrittenExpiryMissed(s: Session, guests: seq<GuestEntry>, renderAt: int, tickAt: int, verifyAt: int)
    requires s.lockedUntil.Some? && s.failedAttempts == RATE_LIMIT_MAX
    requires IsPhoneValid(s.phoneInput)
    requires forall g :: g in guests ==> g.phone != Trim(s.phoneInput)
    requires s.lockedUntil.value <= renderAt && s.lockedUntil.value <= tickAt
    ensures var t := RerenderAsWritten(RenderedSession(s, true), renderAt);
            TickAsWritten(t, tickAt) == t
            && VerifyAsWritten(t, guests, verifyAt).session.lockedUntil == Some(verifyAt + RATE_LIMIT_COOLDOWN)
    ensures Tick(s, tickAt).failedAttempts == 0
    ensures Verify(Tick(s, tickAt), guests, verifyAt).lockedUntil.None?
  {
  }
}
