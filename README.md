# Lumina birthday invitation — a Dafny model of its rules

Lumina is a single-page invitation app for one party. A guest unlocks it with
a phone number from the organiser's guest directory. The guest then reads the
event card with its countdown, the venue options and their videos. Next comes
a registration wizard. While voting is open, the wizard records a vote for a
venue. Once voting has closed, it hands out tickets: the guest picks a tier,
wins a short reflex game to claim it, adds up to three companions and
receives one ticket id per person. A confirmation screen shows the tickets.
The organiser's panel partitions the ticket stock, scans tickets at the door,
tallies the votes and edits the guest directory and the venue list.

This project models those rules in Dafny, one module per source component:

| module | file | source |
|---|---|---|
| `Text` | `text.dfy` | the JavaScript string operations the components use: `trim`, `replace(/\D/g, '')`, `substring`, `toUpperCase`, `indexOf`/`split`, number printing |
| `Types` | `types.dfy` | the records of `types.ts` |
| `UnlockScreen` | `unlock_screen.dfy` | `components/UnlockScreen.tsx`: phone check, failed-attempt lock, admin login |
| `App` | `app.dfy` | `App.tsx`: screen routing, guest directory bookkeeping, configuration merge, registration rows |
| `RsvpForm` | `rsvp_form.dfy` | `components/RsvpForm.tsx`: the step machine, validation, tiers, the claim result, ticket ids |
| `MiniGame` | `mini_game.dfy` | `components/MiniGame.tsx`: the reflex game's state machine |
| `AdminPanel` | `admin_panel.dfy` | `components/AdminPanel.tsx`: stocks, factory reset, door scanner, vote tally, list edits |
| `DetailsCard` | `details_card.dfy` | `components/DetailsCard.tsx`: countdown, voting status, venue listing, video links |
| `SuccessScreen` | `success_screen.dfy` | `components/SuccessScreen.tsx`: the three faces of the confirmation and the ticket cards |

The components that keep state between events are classes whose fields are
that state: `UnlockScreen.UnlockScreen`, `App.AppShell`, `RsvpForm.Wizard`,
`MiniGame.MiniGameScreen` and `AdminPanel.TicketScanner`. Each handler's
`ensures` gives the new state as a pure step function of the old one. The
lemmas then state the properties of those step functions. The pure parts of
the code are functions over datatypes. Time is an integer number of
milliseconds passed in as `now`. Database answers, change-feed records,
random draws and the stored procedure's result are parameters. Database
writes are out-parameters (rows to delete or upsert) or ghost tables.

## Model

| member | source | states |
|---|---|---|
| Text.TrimEmptyIffAllSpace | components/RsvpForm.tsx:110-112 | `trim()` gives the empty string exactly when every character is JavaScript white space |
| Text.TrimStart | components/RsvpForm.tsx:110 | leading JavaScript white space is removed: the result is a suffix, everything cut off is white space, and it does not start with white space |
| Text.TrimEnd | components/RsvpForm.tsx:110 | trailing JavaScript white space is removed: the result is a prefix, everything cut off is white space, and it does not end with white space |
| Text.TrimOfTrimmed | components/UnlockScreen.tsx:87 | trimming a string that has no white space at either end changes nothing |
| Text.KeepDigits | components/UnlockScreen.tsx:251 | `replace(/\D/g, '')` gives only decimal digits, is no longer than its input and leaves an all-digit string unchanged |
| Text.KeepDigitsOfChar | components/UnlockScreen.tsx:251 | one character is kept iff it is a decimal digit |
| Text.KeepDigitsOfJoin | components/UnlockScreen.tsx:251 | the digits of a concatenation are the digits of each part, in order, so every digit is kept and nothing is reordered |
| Text.Prefix | components/UnlockScreen.tsx:251 | `slice(0, n)` is a prefix of the input whose length is n, or the whole input if that is shorter |
| Text.Substring | components/RsvpForm.tsx:202 | `substring(from, to)` is the text between the two positions, each clamped to the length of the string |
| Text.ToUpper | components/RsvpForm.tsx:202 | `toUpperCase()` keeps the length and upper-cases each ASCII letter in place |
| Text.NatToString | components/UnlockScreen.tsx:154 | decimal printing gives a non-empty string of digits with no leading zero |
| Text.ParseNatToString | components/UnlockScreen.tsx:154 | reading back the printed decimal gives the number |
| Text.NatToStringInjective | components/RsvpForm.tsx:202 | two different numbers never print the same |
| Text.PadStart2 | components/UnlockScreen.tsx:154 | `padStart(2, '0')` puts as many `'0'` characters before a shorter string as make it two long, and keeps a longer one |
| Text.IndexOfFrom | components/DetailsCard.tsx:205-207 | the search returns the first position at or after the start where the pattern occurs, and nothing when there is none |
| Text.SecondPiece | components/DetailsCard.tsx:205-207 | `split(sep)[1]` runs from just after the first occurrence of the separator up to the next occurrence or the end, and holds no separator |
| Text.IsCutAt | components/DetailsCard.tsx:205-207 | what `split(/[...]/)[0]` returns: a prefix free of the stop characters that is followed by a stop character or the end |
| Text.CutAtAny | components/DetailsCard.tsx:205-207 | `split(/[?#&]/)[0]` is the longest prefix without any of the stop characters |
| Text.CutAtAnyOfJoin | components/DetailsCard.tsx:208-209 | cutting a text followed by a stop character gives the text back |
| Types.FindVenue | components/DetailsCard.tsx:146 | `venues.find(v => v.id === id)` returns the first venue with that id, or nothing when none has it |
| UnlockScreen.IsPhoneValid | components/UnlockScreen.tsx:87 | the trimmed input is nine digits, the first a 9; how typing changes it is `UnlockScreen.EditedPhoneValid` |
| UnlockScreen.IsRateLimited | components/UnlockScreen.tsx:86 | a lock time is set and still ahead of the clock; how it runs out is `UnlockScreen.RateLimitRunsOut` |
| UnlockScreen.RateLimitRunsOut | components/UnlockScreen.tsx:86 | a session locked at some time was locked at every earlier time, and is free once the clock reaches the lock time |
| UnlockScreen.AdminLoginAccepted | components/UnlockScreen.tsx:147 | the typed user and password both equal the configured ones; `UnlockScreen.UnlockScreen.HandleAdminLogin` enters exactly then |
| UnlockScreen.FindGuestByPhone | components/UnlockScreen.tsx:125 | `find` returns the first directory guest with exactly that phone, and nothing iff no guest has it |
| UnlockScreen.Verify | components/UnlockScreen.tsx:122-137 | a malformed number or an active lock changes nothing; a listed trimmed number verifies the first guest with it; a miss adds exactly one failure and sets the lock to now plus five minutes iff the count reaches five, otherwise keeps it; nothing else sets the lock |
| UnlockScreen.Tick | components/UnlockScreen.tsx:91-100 | the timer lifts an expired lock and resets the failure count, and leaves an active lock, or no lock, alone |
| UnlockScreen.EditPhone | components/UnlockScreen.tsx:250-253 | the field keeps the first nine typed digits and returns the verdict to idle; the failure count and the lock are kept |
| UnlockScreen.ResetVerification | components/UnlockScreen.tsx:139-143 | "change number" makes the verdict idle with no matched guest and an empty number, and keeps the failure count and the lock |
| UnlockScreen.EditedPhoneValid | components/UnlockScreen.tsx:87 | after typing, the number is valid iff at least nine digits were typed and the first is a 9 |
| UnlockScreen.VerifyFindsGuest | components/UnlockScreen.tsx:124-136 | with unique phones, verifying a guest's own number when not locked verifies that guest and counts no failure |
| UnlockScreen.FindUniquePhone | components/UnlockScreen.tsx:125 | with unique phones, the search by a guest's number finds that very guest |
| UnlockScreen.MissRun | components/UnlockScreen.tsx:129-133 | consecutive misses add one failure each and lock the session only at the fifth, until five minutes after that miss |
| UnlockScreen.FiveMissesLock | components/UnlockScreen.tsx:13-14 | five misses from a fresh session lock it, and until the lock time no verification changes anything |
| UnlockScreen.ExpiredLockResets | components/UnlockScreen.tsx:91-100 | after the lock time a tick restarts the count, so four further misses do not lock again |
| UnlockScreen.RemainingSeconds | components/UnlockScreen.tsx:153 | `max(0, ceil((lockedUntil - now) / 1000))`: zero iff the lock time has passed, otherwise the smallest whole number of seconds covering the time left |
| UnlockScreen.RemainingLockTime | components/UnlockScreen.tsx:151-155 | the countdown text is empty iff there is no lock time; otherwise it is the `m:ss` clock of the seconds left |
| UnlockScreen.ClockReadsBack | components/UnlockScreen.tsx:154 | the text `m:ss` reads back as the seconds left: two digits below 60 after the colon, 60·m + ss in total |
| UnlockScreen.UnlockScreen.OnPhoneChange | components/UnlockScreen.tsx:250-253 | the screen's fields become `EditPhone` of the old ones |
| UnlockScreen.UnlockScreen.constructor | components/UnlockScreen.tsx:79-84 | the screen starts idle with an empty number, no failures, no lock and no admin error |
| UnlockScreen.UnlockScreen.HandlePhoneVerify | components/UnlockScreen.tsx:122-137 | the screen's fields become `Verify` of the old ones |
| UnlockScreen.UnlockScreen.OnTimerTick | components/UnlockScreen.tsx:91-100 | the screen's fields become `Tick` of the old ones |
| UnlockScreen.UnlockScreen.HandleResetVerification | components/UnlockScreen.tsx:139-143 | the screen's fields become `ResetVerification` of the old ones |
| UnlockScreen.UnlockScreen.HandleAdminLogin | components/UnlockScreen.tsx:145-149 | the panel opens iff both user and password equal the configured ones; a rejection raises the error flag; the session is unchanged |
| UnlockScreen.VerifyAsWritten | components/UnlockScreen.tsx:86 | the lock test reads the verdict of the last render, so a stale "locked" refuses verification |
| UnlockScreen.TickAsWritten | components/UnlockScreen.tsx:91-92 | the timer fires only if the last render saw the session locked |
| UnlockScreen.AsWrittenExpiryMissed | components/UnlockScreen.tsx:86-100 | a render at or after the lock time disarms the timer, so the count stays at five and the next miss locks again, whereas `Tick` lifts the lock |
| App.DefaultVotingWindow | App.tsx:62 | the built-in deadline, one week after loading, keeps voting open during that week and closes it afterwards |
| App.DefaultGuestsCanUnlock | App.tsx:72-77 | the built-in guests have distinct ids and phones, valid mobile numbers and are unused |
| App.DefaultGuestsDistinct | App.tsx:72-77 | no two built-in guests share an id or a phone |
| App.DefaultGuestsEligible | App.tsx:72-77 | every built-in guest has a nine-digit number starting with 9 and is unused |
| App.VotingTestsGap | App.tsx:375 | the "still open" test and the "closed" test never both hold; neither holds at the deadline instant, without a parsable deadline, or with a forced winner before the deadline |
| App.VotingStillOpen | App.tsx:375 | the routing test: a parsed deadline still ahead and no forced winner id (its behaviour over time is `App.VotingOpenBefore`) |
| App.VotingOpenBefore | App.tsx:375 | voting that is still open at some time was open at every earlier time |
| App.IsVotingClosed | App.tsx:421 | the wizard's test, the same as the details card's `DetailsCard.IsVotingClosed` |
| App.AppWinningVenue | App.tsx:422 | the forced winner when one is configured, otherwise the first venue |
| App.FindTier | App.tsx:81 | `find` returns the first built-in tier with that id, or nothing when none has it |
| App.MapRsvpFromDb | App.tsx:79-96 | a stored row becomes a registration: venue and tier are the listed ones with the stored ids, and missing exactly when no id is stored or none matches; email "" and no companions by default; ticket list `[]` by default; attending; empty song request |
| App.IdOrNull | App.tsx:410-411 | `x?.id \|\| null` is null exactly for a missing or empty id |
| App.ToDbRow | App.tsx:404-413 | the inserted row carries the names, email, companions and tickets as given, and the venue and tier ids exactly when they are non-empty, with their values |
| App.FindUniqueVenue | App.tsx:80 | with unique venue ids, looking up a listed venue's id finds that venue |
| App.RsvpRowRoundTrip | App.tsx:79-96 | a submission read back from its row keeps names, email, companions, tickets, venue and tier; the time becomes the insertion time, and attendance and song request come back as attending and empty |
| App.MergeConfig | App.tsx:222 | `{ ...config, ...patch }`: for each of the ten keys, a key present in the patch overwrites and an absent one is kept |
| App.MergeConfigLaws | App.tsx:272-273 | an empty patch changes nothing, applying a patch twice is the same as once, and two patches in a row are their combination |
| App.MarkUsed | App.tsx:351-353 | unlocking marks every guest with that id used at `now` and leaves every other entry as it was |
| App.MarkUsedChangesOne | App.tsx:351-353 | with unique ids, exactly the unlocked guest's entry changes |
| App.GuestsToDelete | App.tsx:301 | the ids to delete are exactly those of the old list that the new list no longer has |
| App.UnlockDeletesNothing | App.tsx:351-354 | the directory write after an unlock deletes no guest |
| App.NothingToDelete | App.tsx:301 | a new list that keeps every old id deletes nothing |
| App.ToGuestRow | App.tsx:309-315 | ids shorter than ten characters are left for the database; a missing or zero use time is sent as null |
| App.GuestFromRow | App.tsx:240-246 | a stored row becomes a directory entry with its id, name, phone, used flag and use time, each copied from the row |
| App.GuestRowRoundTrip | App.tsx:238-244 | a guest written and read back is the same guest, except that a short id is replaced and a use time of 0 is lost |
| App.LoadedGuests | App.tsx:227-245 | an empty or unreadable guest table gives the built-in guests, otherwise one entry per stored row |
| App.UnlockRoute | App.tsx:367-388 | with a found registration the ticket screen opens iff voting is not still open and it has tickets; without one, iff a registration is cached on the device |
| App.UnlockRouteCases | App.tsx:367-382 | a found registration without tickets always leads to the invitation, and one with tickets leads to the ticket screen once voting is closed |
| App.AppShell.RestoreCached | App.tsx:320-327 | a parsed cached registration becomes the current one; nothing else changes |
| App.AppShell.constructor | App.tsx:204-212 | the app starts on the lock screen with the built-in settings, venues and guests and no registrations |
| App.AppShell.LoadData | App.tsx:215-262 | the settings are merged over the defaults, the stored venues replace the defaults, the guests are loaded or seeded, and every stored registration is mapped with the loaded venues |
| App.AppShell.OnConfigChange | App.tsx:266-279 | a settings record is merged into the configuration, a venues record replaces the venue list, any other record changes nothing |
| App.AppShell.UpdateConfig | App.tsx:284-287 | the configuration is replaced and every other field, the stored table included, is unchanged |
| App.AppShell.UpdateVenues | App.tsx:288-291 | the venue list is replaced and every other field, the stored table included, is unchanged |
| App.AppShell.UpdateGuestList | App.tsx:299-318 | the directory is replaced; the ids to delete are the diff and one row is upserted per new entry |
| App.AppShell.HandleUnlock | App.tsx:349-388 | the guest is marked used at the first clock reading, nobody is deleted, one row per entry of the new directory is upserted, a found registration becomes current, the screen is `UnlockRoute` of the lookup, the cache and the configuration at the second clock reading, taken after the lookup, and the other data is unchanged |
| App.AppShell.HandleAdminEnter | App.tsx:390 | the admin panel opens; the current registration and all data are kept |
| App.AppShell.StartRsvp | App.tsx:391 | the wizard opens; the current registration and all data are kept |
| App.AppShell.HandleBackToDetails | App.tsx:392 | the invitation is shown again; the current registration and all data are kept |
| App.AppShell.HandleExit | App.tsx:393-397 | leaving always returns to the lock screen; the current registration and all data are kept |
| App.AppShell.HandleRsvpSubmit | App.tsx:399-418 | the submission becomes current, is appended once to the registrations and to the table, and the ticket screen opens |
| RsvpForm.TotalSteps | components/RsvpForm.tsx:106 | six steps once voting is closed, three while it is open |
| RsvpForm.ApplyEdit | components/RsvpForm.tsx:118-120 | the edited field takes the new value and every other field keeps its own |
| RsvpForm.ClearError | components/RsvpForm.tsx:121-123 | editing a field removes that field's error if it has a non-empty one and touches no other error |
| RsvpForm.IsEmailMatchesRegex | components/RsvpForm.tsx:113 | the search-based email test accepts exactly the strings matched by `^[^\s@]+@[^\s@]+\.[^\s@]+$` |
| RsvpForm.SearchedEmailMatches | components/RsvpForm.tsx:113 | every string the search accepts matches the pattern |
| RsvpForm.MatchedEmailSearches | components/RsvpForm.tsx:113 | every string the pattern matches is accepted by the search |
| RsvpForm.ValidateStep1 | components/RsvpForm.tsx:108-116 | the check reports errors for the three personal-data fields only |
| RsvpForm.Step1Errors | components/RsvpForm.tsx:108-116 | one error per failing field with its message, the empty-email message taking precedence over the malformed-email one, and none for passing fields |
| RsvpForm.ValidateStep1Names | components/RsvpForm.tsx:110-111 | a name is reported iff it trims to nothing, with its own message |
| RsvpForm.ValidateStep1Email | components/RsvpForm.tsx:112-113 | the email is reported iff it trims to nothing or does not match the pattern, with "required" for a blank one and "invalid" otherwise |
| RsvpForm.ValidateStep1Reports | components/RsvpForm.tsx:108-116 | no error is reported exactly when the personal data is valid |
| RsvpForm.FewerGuests | components/RsvpForm.tsx:476 | the minus button lowers a positive count by one and leaves zero at zero |
| RsvpForm.MoreGuests | components/RsvpForm.tsx:478 | the plus button raises a count below three by one and stops at three |
| RsvpForm.GuestButtonsStayInRange | components/RsvpForm.tsx:476-478 | from a count in 0..3, any series of presses keeps it in 0..3 and moves it by no more than the number of presses |
| RsvpForm.DifficultyFor | components/RsvpForm.tsx:209 | platinum gives the hard game, emerald the medium one, every other tier the easy one |
| RsvpForm.TierOrder | components/RsvpForm.tsx:58 | `indexOf` in the tier order is 0, 1 and 2 exactly for platinum, emerald and standard, and -1 for anything else |
| RsvpForm.InsertBy | components/RsvpForm.tsx:59 | inserting into a sorted list keeps it sorted and adds exactly that element |
| RsvpForm.SortBy | components/RsvpForm.tsx:59 | the tier sort yields a sorted permutation of its input |
| RsvpForm.InsertByBeforeTies | components/RsvpForm.tsx:59 | the inserted element goes before every element with the same key, and the others keep their order |
| RsvpForm.SortByStable | components/RsvpForm.tsx:59 | the sort is stable: the elements with any one key appear in the same order as in the input |
| RsvpForm.OrText | components/RsvpForm.tsx:64-67 | `value \|\| fallback` on a text column that may be null |
| RsvpForm.TierFromRow | components/RsvpForm.tsx:61-70 | a table row becomes a tier with the same id, name, stock and perks (`[]` when missing), and a description, colour, gradient and border taken from the row when non-empty and otherwise `''`, `text-gray-400`, `from-gray-600/20 to-gray-900/40` and `border-white/10` |
| RsvpForm.MapSeq | components/RsvpForm.tsx:61 | `map`: one image per element, in the same order |
| RsvpForm.MapSeqPermute | components/RsvpForm.tsx:59-61 | mapping a permutation gives a permutation of the images, so sorting before the map keeps each tier as often as its row |
| RsvpForm.TiersFromRows | components/RsvpForm.tsx:61-70 | one tier per row, in the same order |
| RsvpForm.TiersOfSortedRows | components/RsvpForm.tsx:59-70 | mapping a sorted permutation of the rows gives sorted tiers made from exactly those rows, each as often as its row appears |
| RsvpForm.LoadedTiers | components/RsvpForm.tsx:50-77 | an error or an empty answer keeps the previous tiers; otherwise one tier per row in tier order: the same multiset as the rows' tiers |
| RsvpForm.MergeTierUpdate | components/RsvpForm.tsx:84-93 | only the tiers with the record's id change: they take the new stock, the new name and description when non-empty, and the new perks when present, and keep their styling |
| RsvpForm.MergeTierUpdateIdempotent | components/RsvpForm.tsx:84-93 | a record delivered twice leaves the tiers as one delivery does |
| RsvpForm.UpdatedTiers | components/RsvpForm.tsx:84-96 | the change feed's result is sorted and is a permutation of the merged tiers |
| RsvpForm.InitialTiersSorted | components/RsvpForm.tsx:18-22 | the built-in tiers are already in tier order |
| RsvpForm.TicketCount | components/RsvpForm.tsx:200-201 | one id for the registrant and one per companion |
| RsvpForm.RandomSegment | components/RsvpForm.tsx:202 | the characters 2 to 4 of the random text, upper-cased: at most three, exactly three when the text is long enough |
| RsvpForm.TicketId | components/RsvpForm.tsx:202 | the id starts with `LUM-`, the name's first four letters upper-cased and a dash, and the text after its last dash is the ticket's position |
| RsvpForm.TicketIds | components/RsvpForm.tsx:201-203 | one id per random draw, each starting with `LUM-` |
| RsvpForm.AfterLastDash | components/RsvpForm.tsx:202 | the text after the last dash is a suffix with no dash in it |
| RsvpForm.AfterLastDashOfJoin | components/RsvpForm.tsx:202 | the text after the last dash of `p-d`, where d has no dash, is d |
| RsvpForm.TicketIdsDistinct | components/RsvpForm.tsx:201-203 | every id ends in its own position, so the ids of one submission are pairwise different whatever the name and the draws |
| RsvpForm.InitialFormData | components/RsvpForm.tsx:28-39 | without earlier data the form starts with empty texts, no tier, no companions, attending, the current time and the forced winner as its venue; with earlier data every field is copied, the venue falls back to the winner and a zero time to now; no tickets either way |
| RsvpForm.NextStep | components/RsvpForm.tsx:126-151 | "next" moves by at most one step within the flow: out of step 1 iff the personal data is valid, out of step 2 iff voting is closed or a venue is chosen, never out of step 3 |
| RsvpForm.IsSoldOut | components/RsvpForm.tsx:414 | a tier with no stock left; it blocks `RsvpForm.Wizard.SelectTier` and disables the game button (`RsvpForm.GameButtonEnabled`) |
| RsvpForm.GameButtonEnabled | components/RsvpForm.tsx:456 | the tier step's button is enabled iff a tier is picked and it is not sold out |
| RsvpForm.LaunchesGame | components/RsvpForm.tsx:138-142 | "next" opens the game only on the tier step once voting is closed and a tier is picked, and only while the button (line 456) is enabled, so not for a sold-out tier |
| RsvpForm.Wizard.constructor | components/RsvpForm.tsx:27-46 | the wizard starts at step 1 with `InitialFormData`, the built-in tiers, no errors, no game, no claim error and the voting status it is given |
| RsvpForm.Wizard.OnVotingStatusChange | App.tsx:421 | a new voting status from the parent replaces the flag and nothing else changes |
| RsvpForm.Wizard.UpdateField | components/RsvpForm.tsx:118-124 | the form becomes `ApplyEdit` of the old one and the field's error is cleared |
| RsvpForm.Wizard.SelectTier | components/RsvpForm.tsx:414-419 | a sold-out tier is ignored; any other becomes the selected tier |
| RsvpForm.Wizard.ChangeGuests | components/RsvpForm.tsx:476-478 | the companion count moves by the plus or minus rule |
| RsvpForm.Wizard.ValidatePersonalData | components/RsvpForm.tsx:127-128 | step 1's check replaces the shown errors by `ValidateStep1` of the form and every other field is unchanged |
| RsvpForm.Wizard.Advance | components/RsvpForm.tsx:126-151 | the step becomes `NextStep` of the old one and nothing else changes |
| RsvpForm.Wizard.HandleNextStep | components/RsvpForm.tsx:126-151 | the step becomes `NextStep` of the old one under the current voting status; step 1 records the validation errors; the game opens from the tier step iff a tier with stock is picked; every other field is unchanged |
| RsvpForm.Wizard.HandlePrevStep | components/RsvpForm.tsx:153-156 | "back" leaves the wizard from step 1, otherwise goes back one step; every other field is unchanged |
| RsvpForm.Wizard.CancelGame | components/RsvpForm.tsx:210 | the game closes; every other field is unchanged |
| RsvpForm.Wizard.OnGameComplete | components/RsvpForm.tsx:158-190 | the game closes in every case; without a tier the claim error is cleared and nothing else changes; a procedure error or a throw shows its message; `-1` shows the sold-out message and clears the tier and the tier's error; any other answer moves to the companions step; tiers and the processing flag are unchanged |
| RsvpForm.Wizard.HandleVoteSubmit | components/RsvpForm.tsx:192-195 | the vote is the form stamped with the current time |
| RsvpForm.Wizard.HandleFinalSubmit | components/RsvpForm.tsx:198-206 | the submission is the form stamped with the time and carrying one ticket id per person |
| RsvpForm.Wizard.LoadTiers | components/RsvpForm.tsx:50-77 | the tiers become `LoadedTiers` of the old ones and the query's answer; every other field is unchanged |
| RsvpForm.Wizard.OnTierUpdate | components/RsvpForm.tsx:81-99 | the tiers become `UpdatedTiers` of the old ones and the record; every other field is unchanged |
| MiniGame.TargetsNeeded | components/MiniGame.tsx:17 | 15 hits on hard, 10 on medium, 6 on easy |
| MiniGame.Step | components/MiniGame.tsx:26-55 | a hit adds one to the score and completes iff the target is reached; a second while playing takes one off the clock and loses at zero; retry restarts at 0 hits and 15 seconds |
| MiniGame.StepKeepsReachable | components/MiniGame.tsx:26-55 | every event keeps the clock in 0..15, the game won iff the target is reached, and time left while playing |
| MiniGame.RunCompletesOnlyOnWin | components/MiniGame.tsx:46-55 | along any run, the completion callback fires only on the hit that wins a game being played |
| MiniGame.WonIsFinal | components/MiniGame.tsx:49-51 | a won game is final: no event changes it or completes again |
| MiniGame.MiniGameScreen.constructor | components/MiniGame.tsx:12-15 | the game starts idle with no hits and 15 seconds |
| MiniGame.MiniGameScreen.Start | components/MiniGame.tsx:76 | the start button begins play |
| MiniGame.MiniGameScreen.Tick | components/MiniGame.tsx:26-36 | the timer effect applies `Step` for one second |
| MiniGame.MiniGameScreen.HandleHit | components/MiniGame.tsx:46-55 | a hit applies `Step` and reports whether the completion callback is scheduled |
| MiniGame.MiniGameScreen.Retry | components/MiniGame.tsx:123 | retry restarts the game |
| AdminPanel.StockPartition | components/AdminPanel.tsx:210-213 | platinum is 5; emerald and standard are non-negative, share `max(0, capacity - 5)`, and standard has the odd ticket |
| AdminPanel.PartitionCoversCapacity | components/AdminPanel.tsx:210-213 | from a capacity of five up, the three stocks add up to the capacity |
| AdminPanel.SavedStocks | components/AdminPanel.tsx:205-213 | stocks are computed only when a capacity is set |
| AdminPanel.ResetStocksAreInitial | components/AdminPanel.tsx:800-802 | the reset stocks 5, 12 and 25 are the built-in tiers' stocks |
| AdminPanel.ResetGuests | components/AdminPanel.tsx:796 | every guest becomes unused with no use time, nothing else changes |
| AdminPanel.FactoryReset | components/AdminPanel.tsx:783-802 | the reset aborts iff the registrations cannot be read; otherwise it writes the reset guests and stocks |
| AdminPanel.ResetKeepsDirectory | components/AdminPanel.tsx:796-797 | the reset keeps phones unique, deletes no guest, and leaves every guest unused |
| AdminPanel.FindByTicket | components/AdminPanel.tsx:48 | the lookup returns the first registration holding the ticket, and nothing iff none holds it |
| AdminPanel.Scan | components/AdminPanel.tsx:44-91 | an unknown ticket is invalid and logs nothing; a known one is valid and reported as used iff already logged; a new one is shown as admitted unless the database threw, and is logged iff the insert also succeeded; a throw shows it as valid but unrecorded |
| AdminPanel.ScanKeepsLogDistinct | components/AdminPanel.tsx:62-85 | the log never holds a ticket twice, and only tickets held by a registration enter it |
| AdminPanel.SecondScanReportsUsed | components/AdminPanel.tsx:62-74 | after a ticket is admitted, every later scan of it reports "Pase Ya Utilizado" and leaves the log unchanged |
| AdminPanel.RejectedInsertAdmitsTwice | components/AdminPanel.tsx:78-85 | an insert that returns an error still shows "admitted" but logs nothing, so the next scan admits the same ticket again |
| AdminPanel.TicketScanner.HandleQrResult | components/AdminPanel.tsx:44-91 | the result and the new log are those of `Scan`, and the log stays free of duplicates |
| AdminPanel.TicketScanner.ClearScans | components/AdminPanel.tsx:805-810 | the reset empties the scan log iff the query listing the records answered, and otherwise keeps it |
| AdminPanel.TicketScanner.constructor | components/AdminPanel.tsx:27 | the scanner starts from a duplicate-free scan table and shows no result |
| AdminPanel.Votes | components/AdminPanel.tsx:244-248 | there is at most one vote per registration |
| AdminPanel.VotesUpToCount | components/AdminPanel.tsx:244-248 | the votes from the first n registrations are as many as those of them with a venue |
| AdminPanel.VotesAreRegistrationsWithVenue | components/AdminPanel.tsx:295 | the votes emitted are the registrations with a venue |
| AdminPanel.TotalPax | components/AdminPanel.tsx:238 | the head count: with 0..3 companions each, it lies between one and four per registration |
| AdminPanel.TotalPaxOfJoin | components/AdminPanel.tsx:238 | the count of two lists joined is the sum of their counts, so each registration is counted once with its companions |
| AdminPanel.FirstSeen | components/AdminPanel.tsx:243-248 | the tally's keys are the voted ids, each once, in order of first vote |
| AdminPanel.FirstSeenStep | components/AdminPanel.tsx:246 | a new vote adds its id at the end of the keys iff it was not a key yet |
| AdminPanel.BumpCount | components/AdminPanel.tsx:246 | `counts[id] = (counts[id] \|\| 0) + 1` keeps the counts equal to the number of votes, with one more vote for the id |
| AdminPanel.CountsUpToCount | components/AdminPanel.tsx:244-248 | after the first n registrations, the counts have a key per voted id, equal to its number of votes |
| AdminPanel.KeysUpToFirstSeen | components/AdminPanel.tsx:244-248 | after the first n registrations, the keys are the voted ids in order of first vote |
| AdminPanel.TallyComplete | components/AdminPanel.tsx:243-248 | after all registrations, the keys and counts are those of the whole vote list |
| AdminPanel.Tally | components/AdminPanel.tsx:243-248 | the loop builds one count per voted id, equal to its number of votes, with keys in first-vote order |
| AdminPanel.FirstMostCounted | components/AdminPanel.tsx:249-250 | the chosen key has the largest count and every earlier key a strictly smaller one |
| AdminPanel.GetVenueWithMostVotes | components/AdminPanel.tsx:241-251 | nothing iff there are no votes; otherwise a voted venue with the most votes, ties going to the first voted for |
| AdminPanel.AddGuest | components/AdminPanel.tsx:466-483 | rejected iff the trimmed name is empty or the digits are not a mobile number, or the phone is taken; otherwise exactly one unused guest is appended |
| AdminPanel.AddKeepsPhonesUnique | components/AdminPanel.tsx:471-483 | adding keeps the phones unique and deletes nobody |
| AdminPanel.RestoreGuest | components/AdminPanel.tsx:521 | only the guest with that id becomes unused again |
| AdminPanel.RestoreUndoesUnlock | components/AdminPanel.tsx:521 | restoring an unlocked guest gives back the directory from before the unlock |
| AdminPanel.DeleteById | components/AdminPanel.tsx:525 | `filter(x => x.id !== id)`: never longer than the list, and the list itself when no entry has the id |
| AdminPanel.DeleteByIdMembers | components/AdminPanel.tsx:525 | an entry survives iff it was listed and has another id |
| AdminPanel.DeleteByIdOfJoin | components/AdminPanel.tsx:525 | deleting from two lists joined is joining the two deletions, so the survivors keep their order and multiplicity |
| AdminPanel.DeleteByIdCutsOne | components/AdminPanel.tsx:525 | when only the entry at position k has its id, deleting it removes exactly that position |
| AdminPanel.DeleteGuest | components/AdminPanel.tsx:525 | deleting from the directory is `DeleteById` on the guests' ids |
| AdminPanel.DeleteDiff | components/AdminPanel.tsx:525 | with unique ids, the directory write after a delete deletes exactly that id |
| AdminPanel.DiffOfOneRemoval | components/AdminPanel.tsx:525 | a list that lost exactly one id has exactly that id in its diff |
| AdminPanel.DeleteKeepsPhonesUnique | components/AdminPanel.tsx:525 | deleting guests keeps the phones unique |
| AdminPanel.EditsKeepPhonesUnique | components/AdminPanel.tsx:521-525 | restoring and deleting keep the phones unique |
| AdminPanel.AddVenue | components/AdminPanel.tsx:333-347 | one venue is appended, with the new id and the colour `palette[length % 6]` |
| AdminPanel.DeleteVenue | components/AdminPanel.tsx:361 | removing a venue is `DeleteById` on the venues' ids, so the four lemmas above hold for venues too |
| DetailsCard.Countdown | components/DetailsCard.tsx:36-46 | nothing once the deadline is reached; otherwise hours below 24, minutes and seconds below 60, and the fields add up to the time left, to the second |
| DetailsCard.MixedRadix | components/DetailsCard.tsx:41-46 | the four fields of the countdown add back up to the time left, rounded down to the second |
| DetailsCard.ForcedWinner | components/DetailsCard.tsx:146 | the winner is a listed venue with the forced id, only when that id is set |
| DetailsCard.IsVotingClosed | components/DetailsCard.tsx:145 | voting is closed once a parsed deadline lies in the past; a missing or unparsable deadline never closes it |
| DetailsCard.VotingStaysClosed | components/DetailsCard.tsx:145 | once voting is closed it stays closed at every later time |
| DetailsCard.DeadlineCountdown | components/DetailsCard.tsx:30-32 | a countdown exactly for a parsed deadline still ahead, and then hours below 24, minutes and seconds below 60, adding up to the time left to the second |
| DetailsCard.CountdownShown | components/DetailsCard.tsx:264 | the countdown panel is shown iff no winner is forced and a deadline is set |
| DetailsCard.ListedVenues | components/DetailsCard.tsx:306-308 | all venues are listed, or only the winner once one is forced |
| DetailsCard.WinnerListed | components/DetailsCard.tsx:306-308 | a forced winner is listed |
| DetailsCard.TargetVenueForMap | components/DetailsCard.tsx:153 | the map shows the winner, else the preview venue, else the first venue |
| DetailsCard.InitialPreview | components/DetailsCard.tsx:148 | the preview starts on the winner, else on the first venue, else on nothing |
| DetailsCard.MapTargetExists | components/DetailsCard.tsx:148-153 | there is always a map target when at least one venue exists |
| DetailsCard.FooterFor | components/DetailsCard.tsx:353-365 | the already-voted panel shows iff the guest voted and no winner is forced; otherwise the button claims a pass iff a winner is forced or voting is closed |
| DetailsCard.ForcedWinnerOffersClaim | components/DetailsCard.tsx:353-365 | once a winner is forced every guest is offered the claim |
| DetailsCard.YouTubeId | components/DetailsCard.tsx:204-207 | the text after `shorts/`, else `v=`, else `youtu.be/` (up to the next occurrence of the marker), cut at the first `?`, `#` or `&`; empty when no marker occurs |
| DetailsCard.YouTubeEmbedReadsBack | components/DetailsCard.tsx:208-209 | cutting the embed address after its prefix gives the id back |
| DetailsCard.VimeoId | components/DetailsCard.tsx:215-216 | the path after `vimeo.com/`, cut at the first `?` or `#` and then at the first `/`; empty without `vimeo.com/` |
| DetailsCard.VimeoPath | components/DetailsCard.tsx:215 | the text after `vimeo.com/` cut at the first `?` or `#` |
| DetailsCard.VimeoQuery | components/DetailsCard.tsx:217-221 | `?h=<hash>&` when there is a hash, else `?`, then the fixed `title=0&byline=0&portrait=0&dnt=1`, then `&autoplay=1&api=1` for the interactive player or `&api=1` |
| DetailsCard.ParseVideoInfo | components/DetailsCard.tsx:201-226 | nothing iff the link is empty; a YouTube embed iff it names YouTube; a Vimeo player iff it names Vimeo and is a player link or has a Vimeo id; an iframe of the link itself in every other case; player links are kept as they are |
| DetailsCard.YouTubeEmbedCarriesId | components/DetailsCard.tsx:203-209 | a YouTube link's embed carries exactly the parsed id |
| DetailsCard.VimeoEmbedReadsBack | components/DetailsCard.tsx:222 | cutting the player address after its prefix gives the id back |
| DetailsCard.VimeoEmbedCarriesId | components/DetailsCard.tsx:215-222 | a Vimeo page link becomes a player address that carries exactly its id |
| SuccessScreen.IsVoteOnly | components/SuccessScreen.tsx:156 | no ticket list, or an empty one; `SuccessScreen.ScreenFor` shows the vote-recorded face exactly then |
| SuccessScreen.Holder | components/SuccessScreen.tsx:105 | the registrant's full name on the first card, `Acompañante #i` on the i-th; `SuccessScreen.CompanionLabelsDistinct` shows the companion labels differ |
| SuccessScreen.CardTier | components/SuccessScreen.tsx:50-52 | the main ticket shows the chosen tier or URBAN ECHO; companion tickets always show URBAN ECHO |
| SuccessScreen.ShortCode | components/SuccessScreen.tsx:134 | the printed code is the first eight characters of the id, upper-cased |
| SuccessScreen.Cards | components/SuccessScreen.tsx:295-306 | one card per stored ticket id, in order; the first is the registrant's, the others are "Acompañante #i" |
| SuccessScreen.ScreenFor | components/SuccessScreen.tsx:242-283 | the thank-you face iff not attending; the vote face iff attending without tickets; otherwise at least one ticket card |
| SuccessScreen.CompanionLabelsDistinct | components/SuccessScreen.tsx:105 | no two companion cards carry the same label |
| SuccessScreen.SubmittedTicketsShown | components/SuccessScreen.tsx:295-306 | a final submission shows one card per person: the first the registrant's with the chosen tier, the rest URBAN ECHO companions, all with different ids |
| SuccessScreen.ShortCodeOfTicketId | components/SuccessScreen.tsx:134 | the printed code of a generated id depends only on the first name: `LUM-` and its first four letters, upper-cased |
| SuccessScreen.PartyShareShortCode | components/SuccessScreen.tsx:134 | so the tickets of one party differ but print the same code, once the first name has four letters |
| SuccessScreen.WhatsAppSummary | components/SuccessScreen.tsx:231-234 | the message names the tier or "General", the venue or "Evento", and counts 1 + companions people |
| SuccessScreen.SummaryCountsCards | components/SuccessScreen.tsx:233 | for a final submission, the message's head count equals the number of cards shown |

## Findings

| source | as written | input that shows it | evidently intended | confidence | as-written member | corrected member |
|---|---|---|---|---|---|---|
| components/UnlockScreen.tsx:86-100 | the lock timer's interval exists only while the last render found the session locked. Any render at or after the lock time (a keystroke, a parent re-render) removes it before it fires. The failure count then stays at five, and the next miss locks again. | five misses, then a keystroke after the five minutes have passed and before the next one-second tick, then one more wrong number | once the lock expires, the lock is lifted and the count restarts at zero, so four more misses are allowed | medium, not executed | UnlockScreen.AsWrittenExpiryMissed | UnlockScreen.ExpiredLockResets |

The rest of the model uses the corrected timer: `UnlockScreen.Tick` and
`UnlockScreen.UnlockScreen.OnTimerTick`.

## Left out

- Supabase reads, writes and change-feed channels, and `localStorage`. Their answers are parameters and their writes are out-parameters or the ghost `rsvpTable`.
- The `claim_ticket` stored procedure. It is not part of this model. Its integer answer is a parameter of `RsvpForm.Wizard.OnGameComplete`, and its atomicity across sessions is not modelled.
- The "already voted" lookup by first name (`ilike`, App.tsx:361-365). It runs in the database; its first row is the `existing` parameter of `App.AppShell.HandleUnlock`.
- Camera access, QR decoding and rendering, and the PDF export. These are device and library calls.
- `services/geminiService.ts` (party persona). It is not part of this model.
- `Math.random` and `crypto.randomUUID`: ticket random segments, game target positions, new guest and venue ids. They are parameters.
- Floating point: the vote percentage bars, the hold-to-enter progress, particle animations and PDF layout.
- Locale and time-zone formatting, the scan time display, and timer scheduling. Timers are explicit tick methods.
- `components/GuestHelp.tsx`, `components/GuestDock.tsx`, `components/DesktopNav.tsx` and the background audio player in `App.tsx`. These are presentation and navigation only.
- JSX rendering and styling, including the tier name split on the ticket card.
- `RsvpData.deviceFingerprint` and `RsvpData.phone`. The modelled code never reads them.
- The contents of the built-in venue catalogue (App.tsx:12-52). `App.AppShell` takes it as a parameter.
- Text.ToUpper: upper-cases ASCII letters only; `toUpperCase` also maps other letters.
- AdminPanel.SavedStocks: a capacity that is missing gives no stocks here, whereas the source writes `NaN`.
- AdminPanel.GetVenueWithMostVotes: ties follow the order of first vote. `Object.entries` puts integer-like keys first, which is not modelled.
- AdminPanel.Scan: a database error that the scan lookup returns as a value (rather than throwing) counts as "not yet scanned" in the source, and the ticket is inserted again. That path is not modelled, because it would let the log hold a ticket twice. The insert's returned error is modelled (`InsertRejected`).
- AdminPanel.TicketScanner.ClearScans: the reset deletes the scan records one by one and ignores each delete's returned error. Here a listed log is emptied entirely.
- Deadlines are parsed dates (`Types.Deadline`); date parsing itself is not modelled, and an unparsable deadline is its own case.
- The race between verifying a number and the directory changing under it.
- The page reload after a factory reset.
- The `initialData` parameter of the wizard. `App.tsx` never passes it; `RsvpForm.InitialFormData` still models it.
- SuccessScreen.WhatsAppSummary: models the message's fields, not its wording or the URL encoding.
