/** The registration wizard (`components/RsvpForm.tsx`). While voting is open
    it has three steps: personal data, the venue vote, and a confirmation that
    submits the vote. Once voting is closed it has six: personal data, the
    winning venue, a ticket tier (claimed by winning the mini-game and then
    calling the stock-decrementing procedure), companions, a summary, and the
    issuing of one ticket id per person.

    The tier table's current contents and its change feed arrive as method
    inputs; so do the procedure's result and the random text of each id. */
module RsvpForm {
  import opened Text
  import opened Types
  import MiniGame
  import DetailsCard

  /** The built-in tiers, shown until the table answers. */
  const INITIAL_TIERS: seq<TicketTier> := [
    TicketTier("platinum", "PLATINUM VIP", "Acceso total + Barra Libre", 5, "text-amber-400",
               "from-amber-400/20 to-amber-900/40", "border-amber-400/30",
               ["Barra Libre", "Zona VIP", "Meet & Greet"]),
    TicketTier("emerald", "EMERALD GUEST", "Acceso Preferencial", 12, "text-emerald-400",
               "from-emerald-400/20 to-emerald-900/40", "border-emerald-400/30",
               ["Zona Preferencial", "Welcome Drink"]),
    TicketTier("standard", "STANDARD ECHO", "Acceso General", 25, "text-gray-400",
               "from-gray-600/20 to-gray-900/40", "border-white/10", ["Acceso General"])
  ]

  const MSG_FIRST_NAME: string := "El nombre es obligatorio"
  const MSG_LAST_NAME: string := "El apellido es obligatorio"
  const MSG_EMAIL_REQUIRED: string := "El correo es obligatorio"
  const MSG_EMAIL_INVALID: string := "Ingresa un email válido"
  const MSG_CLAIM_ERROR: string := "Error al reclamar boleto. Intenta de nuevo."
  const MSG_CONNECTION_ERROR: string := "Error de conexión. Intenta de nuevo."

  function SoldOutMessage(tierName: string): string {
    "¡Lo sentimos! Los boletos " + tierName
      + " se agotaron mientras jugabas. Elige otra categoría."
  }

  /** The number of steps the wizard shows. */
  function TotalSteps(isVotingClosed: bool): (n: int)
    ensures n == if isVotingClosed then 6 else 3
  {
    if isVotingClosed then 6 else 3
  }

  // ---------------------------------------------------------------- fields

  /** The form fields that can carry a validation error or be edited. */
  datatype Field = FirstName | LastName | Email | SelectedVenue | SelectedTier | GuestCount | SongRequest

  /** One `updateField(field, value)` call. */
  datatype FieldEdit =
    | EditFirstName(text: string)
    | EditLastName(text: string)
    | EditEmail(text: string)
    | EditSongRequest(text: string)
    | PickVenue(venue: VenueOption)
    | PickTier(tier: Option<TicketTier>)
    | SetGuestCount(count: int)

  function FieldOf(e: FieldEdit): Field {
    match e
    case EditFirstName(_) => FirstName
    case EditLastName(_) => LastName
    case EditEmail(_) => Email
    case EditSongRequest(_) => SongRequest
    case PickVenue(_) => SelectedVenue
    case PickTier(_) => SelectedTier
    case SetGuestCount(_) => GuestCount
  }

  /** `{ ...prev, [field]: value }`: the edited field takes the value, every
      other field keeps its own. */
  function ApplyEdit(d: RsvpData, e: FieldEdit): (r: RsvpData)
    ensures r.id == d.id && r.isAttending == d.isAttending && r.timestamp == d.timestamp
            && r.ticketIds == d.ticketIds
    ensures r.firstName == (if e.EditFirstName? then e.text else d.firstName)
    ensures r.lastName == (if e.EditLastName? then e.text else d.lastName)
    ensures r.email == (if e.EditEmail? then e.text else d.email)
    ensures r.songRequest == (if e.EditSongRequest? then e.text else d.songRequest)
    ensures r.selectedVenue == (if e.PickVenue? then Some(e.venue) else d.selectedVenue)
    ensures r.selectedTier == (if e.PickTier? then e.tier else d.selectedTier)
    ensures r.guestCount == (if e.SetGuestCount? then e.count else d.guestCount)
  {
    match e
    case EditFirstName(t) => d.(firstName := t)
    case EditLastName(t) => d.(lastName := t)
    case EditEmail(t) => d.(email := t)
    case EditSongRequest(t) => d.(songRequest := t)
    case PickVenue(v) => d.(selectedVenue := Some(v))
    case PickTier(t) => d.(selectedTier := t)
    case SetGuestCount(n) => d.(guestCount := n)
  }

  /** Editing a field drops that field's error, if it has one, and no other. */
  function ClearError(errors: map<Field, string>, f: Field): (r: map<Field, string>)
    ensures f in r ==> f in errors && errors[f] == "" && r[f] == ""
    ensures forall g :: g != f ==> (g in r <==> g in errors)
    ensures forall g :: g != f && g in r ==> r[g] == errors[g]
  {
    if f in errors && errors[f] != "" then errors - {f} else errors
  }

  // ---------------------------------------------------------------- email

  /** A run of characters that are neither white space nor `@`. */
  predicate EmailPart(s: string) {
    |s| > 0 && forall i :: 0 <= i < |s| ==> !IsJsSpace(s[i]) && s[i] != '@'
  }

  /** `/^[^\s@]+@[^\s@]+\.[^\s@]+$/`: a part, `@`, a part, a dot, a part. */
  predicate EmailRegex(s: string) {
    exists i, k :: 0 < i < k < |s| && EmailSplit(s, i, k)
  }

  /** The pattern matches with the `@` at `i` and the dot at `k`. */
  predicate EmailSplit(s: string, i: int, k: int) {
    0 < i < k < |s| && s[i] == '@' && s[k] == '.'
    && EmailPart(s[..i]) && EmailPart(s[i + 1..k]) && EmailPart(s[k + 1..])
  }

  /** No white space anywhere. */
  predicate NoSpace(s: string) { forall i :: 0 <= i < |s| ==> !IsJsSpace(s[i]) }

  /** A dot with text on both sides. */
  predicate DotInside(t: string) { exists k :: 0 < k < |t| - 1 && DotAt(t, k) }

  predicate DotAt(t: string, k: int) { 0 < k < |t| - 1 && t[k] == '.' }

  /** The same test by search: no white space, the first `@` is not at the
      start, no second `@`, and a dot after the `@` with text on both sides. */
  predicate IsEmail(s: string) {
    NoSpace(s) && IndexOf(s, "@").Some? && IndexOf(s, "@").value > 0
    && var rest := s[IndexOf(s, "@").value + 1..];
       (forall j :: 0 <= j < |rest| ==> rest[j] != '@') && DotInside(rest)
  }

  lemma AtOccurs(s: string, i: nat)
    requires i < |s|
    ensures OccursAt(s, "@", i) <==> s[i] == '@'
  {
    if s[i] == '@' {
      assert s[i..i + 1] == "@";
    }
  }

  lemma SearchedEmailMatches(s: string)
    requires IsEmail(s)
    ensures EmailRegex(s)
  {
    var i := IndexOf(s, "@").value;
    var rest := s[i + 1..];
    var k :| 0 < k < |rest| - 1 && DotAt(rest, k);
    forall j | 0 <= j < i
      ensures s[j] != '@'
    {
      AtOccurs(s, j);
    }
    AtOccurs(s, i);
    var m := i + 1 + k;
    assert s[m] == '.';
    assert EmailPart(s[..i]);
    assert s[i + 1..m] == rest[..k];
    assert s[m + 1..] == rest[k + 1..];
    assert EmailSplit(s, i, m);
  }

  lemma MatchedEmailSearches(s: string)
    requires EmailRegex(s)
    ensures IsEmail(s)
  {
    var i, k :| 0 < i < k < |s| && EmailSplit(s, i, k);
    AtOccurs(s, i);
    forall j | 0 <= j < i
      ensures !OccursAt(s, "@", j)
    {
      assert s[..i][j] == s[j];
      AtOccurs(s, j);
    }
    var found := IndexOf(s, "@").value;
    assert found == i;
    forall j | 0 <= j < |s|
      ensures !IsJsSpace(s[j]) && (j != i ==> s[j] != '@')
    {
      if j < i {
        assert s[..i][j] == s[j];
      } else if i < j < k {
        assert s[i + 1..k][j - i - 1] == s[j];
      } else if j > k {
        assert s[k + 1..][j - k - 1] == s[j];
      }
    }
    var rest := s[i + 1..];
    assert DotAt(rest, k - i - 1);
  }

  /** The search-based test accepts exactly the strings the pattern matches. */
  lemma IsEmailMatchesRegex(s: string)
    ensures IsEmail(s) <==> EmailRegex(s)
  {
    if IsEmail(s) {
      SearchedEmailMatches(s);
    }
    if EmailRegex(s) {
      MatchedEmailSearches(s);
    }
  }

  /** Names present and an email the pattern accepts. */
  predicate PersonalDataValid(d: RsvpData) {
    Trim(d.firstName) != [] && Trim(d.lastName) != [] && Trim(d.email) != [] && EmailRegex(d.email)
  }

  /** The errors of step 1, from the four facts they depend on: which name
      fields are blank, whether the email is blank, whether it passes `IsEmail`. */
  function Step1Errors(firstBlank: bool, lastBlank: bool, emailBlank: bool, emailOk: bool): (r: map<Field, string>)
    ensures r.Keys <= {FirstName, LastName, Email}
    ensures FirstName in r <==> firstBlank
    ensures LastName in r <==> lastBlank
    ensures Email in r <==> emailBlank || !emailOk
    ensures FirstName in r ==> r[FirstName] == MSG_FIRST_NAME
    ensures LastName in r ==> r[LastName] == MSG_LAST_NAME
    ensures Email in r ==> r[Email] == if emailBlank then MSG_EMAIL_REQUIRED else MSG_EMAIL_INVALID
  {
    var e1: map<Field, string> := if firstBlank then map[FirstName := MSG_FIRST_NAME] else map[];
    var e2 := if lastBlank then e1[LastName := MSG_LAST_NAME] else e1;
    if emailBlank then e2[Email := MSG_EMAIL_REQUIRED]
    else if !emailOk then e2[Email := MSG_EMAIL_INVALID]
    else e2
  }

  /** `validateStep1`: an error per failing field, nothing for a passing one.
      A field is blank when it is all white space, which is when its trimmed
      form is empty (`TrimEmptyIffAllSpace`); what the result means is
      `ValidateStep1Names`, `ValidateStep1Email` and `ValidateStep1Reports`. */
  function ValidateStep1(d: RsvpData): (r: map<Field, string>)
    ensures r.Keys <= {FirstName, LastName, Email}
  {
    Step1Errors(AllSpace(d.firstName), AllSpace(d.lastName), AllSpace(d.email), IsEmail(d.email))
  }

  /** Step 1 reports a name field exactly when it is blank, with its message. */
  lemma ValidateStep1Names(d: RsvpData)
    ensures var r := ValidateStep1(d);
      && (FirstName in r <==> Trim(d.firstName) == [])
      && (LastName in r <==> Trim(d.lastName) == [])
      && (FirstName in r ==> r[FirstName] == MSG_FIRST_NAME)
      && (LastName in r ==> r[LastName] == MSG_LAST_NAME)
  {
    TrimEmptyIffAllSpace(d.firstName);
    TrimEmptyIffAllSpace(d.lastName);
  }

  /** Step 1 reports the email exactly when it is blank or does not match the
      pattern, with the "required" message for a blank one. */
  lemma ValidateStep1Email(d: RsvpData)
    ensures var r := ValidateStep1(d);
      && (Email in r <==> Trim(d.email) == [] || !EmailRegex(d.email))
      && (Email in r ==> r[Email] == if Trim(d.email) == [] then MSG_EMAIL_REQUIRED else MSG_EMAIL_INVALID)
  {
    IsEmailMatchesRegex(d.email);
    TrimEmptyIffAllSpace(d.email);
  }

  /** Step 1 reports nothing exactly when the personal data is valid. */
  lemma ValidateStep1Reports(d: RsvpData)
    ensures ValidateStep1(d) == map[] <==> PersonalDataValid(d)
  {
    ValidateStep1Names(d);
    ValidateStep1Email(d);
    var r := ValidateStep1(d);
    if PersonalDataValid(d) {
      assert r.Keys == {};
    } else {
      assert FirstName in r || LastName in r || Email in r;
    }
  }

  // ---------------------------------------------------------------- companions

  /** The minus button. */
  function FewerGuests(n: int): (r: int)
    ensures r >= 0 && r <= (if n > 0 then n else 0)
    ensures n >= 1 ==> r == n - 1
    ensures n <= 1 ==> r == 0
  {
    if n - 1 > 0 then n - 1 else 0
  }

  /** The plus button. */
  function MoreGuests(n: int): (r: int)
    ensures r <= 3 && r <= n + 1
    ensures n <= 2 ==> r == n + 1
    ensures n >= 2 ==> r == 3
  {
    if n + 1 < 3 then n + 1 else 3
  }

  /** From a count between 0 and 3 the buttons keep it there and move it by one
      step, stopping at the ends. */
  lemma {:induction false} GuestButtonsStayInRange(n: int, presses: seq<bool>)
    requires 0 <= n <= 3
    ensures 0 <= ApplyPresses(n, presses) <= 3
    ensures n - |presses| <= ApplyPresses(n, presses) <= n + |presses|
    decreases |presses|
  {
    if presses != [] {
      var m := if presses[0] then MoreGuests(n) else FewerGuests(n);
      assert 0 <= m <= 3 && n - 1 <= m <= n + 1;
      GuestButtonsStayInRange(m, presses[1..]);
    }
  }

  /** The count after a series of presses (`true` for plus). */
  function ApplyPresses(n: int, presses: seq<bool>): int
    decreases |presses|
  {
    if presses == [] then n
    else ApplyPresses(if presses[0] then MoreGuests(n) else FewerGuests(n), presses[1..])
  }

  // ---------------------------------------------------------------- tiers

  /** A tier whose stock is used up cannot be picked, and the game button is off. */
  predicate IsSoldOut(t: TicketTier) { t.stock <= 0 }

  predicate GameButtonEnabled(d: RsvpData) {
    d.selectedTier.Some? && !IsSoldOut(d.selectedTier.value)
  }

  /** The game difficulty for a tier. */
  function DifficultyFor(tierId: string): (d: MiniGame.Difficulty)
    ensures tierId == "platinum" <==> d == MiniGame.Hard
    ensures tierId == "emerald" <==> d == MiniGame.Medium
  {
    if tierId == "platinum" then MiniGame.Hard
    else if tierId == "emerald" then MiniGame.Medium
    else MiniGame.Easy
  }

  /** `['platinum', 'emerald', 'standard'].indexOf(id)`. */
  function TierOrder(id: string): (k: int)
    ensures -1 <= k <= 2
    ensures k == 0 <==> id == "platinum"
    ensures k == 1 <==> id == "emerald"
    ensures k == 2 <==> id == "standard"
  {
    if id == "platinum" then 0 else if id == "emerald" then 1 else if id == "standard" then 2 else -1
  }

  predicate SortedBy<T>(s: seq<T>, key: T -> int) {
    forall i, j :: 0 <= i < j < |s| ==> key(s[i]) <= key(s[j])
  }

  /** Insertion before the first element whose key is not smaller. */
  function InsertBy<T>(x: T, s: seq<T>, key: T -> int): (r: seq<T>)
    requires SortedBy(s, key)
    ensures SortedBy(r, key) && multiset(r) == multiset(s) + multiset{x}
    ensures |r| == |s| + 1
    ensures key(r[0]) == key(x) || (s != [] && key(r[0]) == key(s[0]))
  {
    if s == [] || key(x) <= key(s[0]) then [x] + s
    else
      var rest := InsertBy(x, s[1..], key);
      assert key(s[0]) <= key(rest[0]);
      assert s == [s[0]] + s[1..];
      [s[0]] + rest
  }

  /** `Array.prototype.sort` with the comparator `key(a) - key(b)`: sorted by key,
      a permutation of the input. */
  function SortBy<T>(s: seq<T>, key: T -> int): (r: seq<T>)
    ensures SortedBy(r, key) && multiset(r) == multiset(s) && |r| == |s|
  {
    if s == [] then []
    else
      assert s == [s[0]] + s[1..];
      InsertBy(s[0], SortBy(s[1..], key), key)
  }

  /** The elements of `s` whose key is `k`, in their order in `s`. */
  function WithKey<T>(s: seq<T>, key: T -> int, k: int): (r: seq<T>)
    ensures |r| <= |s|
  {
    if s == [] then [] else (if key(s[0]) == k then [s[0]] else []) + WithKey(s[1..], key, k)
  }

  lemma WithKeyCons<T>(y: T, t: seq<T>, key: T -> int, k: int)
    ensures WithKey([y] + t, key, k) == (if key(y) == k then [y] else []) + WithKey(t, key, k)
  {
    assert ([y] + t)[0] == y && ([y] + t)[1..] == t;
  }

  /** The inserted element goes before every element with the same key. */
  lemma {:induction false} InsertByBeforeTies<T>(x: T, s: seq<T>, key: T -> int, k: int)
    requires SortedBy(s, key)
    ensures WithKey(InsertBy(x, s, key), key, k) == (if key(x) == k then [x] else []) + WithKey(s, key, k)
  {
    var mine := if key(x) == k then [x] else [];
    if s == [] || key(x) <= key(s[0]) {
      WithKeyCons(x, s, key, k);
    } else {
      var first := if key(s[0]) == k then [s[0]] else [];
      assert first == [] || mine == [];
      calc {
        WithKey(InsertBy(x, s, key), key, k);
      == { WithKeyCons(s[0], InsertBy(x, s[1..], key), key, k); }
        first + WithKey(InsertBy(x, s[1..], key), key, k);
      == { InsertByBeforeTies(x, s[1..], key, k); }
        first + (mine + WithKey(s[1..], key, k));
      == { assert first + mine == mine + first; }
        mine + (first + WithKey(s[1..], key, k));
      == { assert s == [s[0]] + s[1..]; WithKeyCons(s[0], s[1..], key, k); }
        mine + WithKey(s, key, k);
      }
    }
  }

  /** The sort is stable, as `Array.prototype.sort` is: elements with equal keys
      keep their relative order. */
  lemma {:induction false} SortByStable<T>(s: seq<T>, key: T -> int, k: int)
    ensures WithKey(SortBy(s, key), key, k) == WithKey(s, key, k)
  {
    if s != [] {
      SortByStable(s[1..], key, k);
      InsertByBeforeTies(s[0], SortBy(s[1..], key), key, k);
    }
  }

  function TierKey(t: TicketTier): int { TierOrder(t.id) }

  /** A row of the tier table. */
  datatype TierRow = TierRow(
    id: string, name: string, description: Option<string>, stock: int,
    color: Option<string>, gradient: Option<string>, border: Option<string>,
    perks: Option<seq<string>>)

  /** `a || b` for a text column that may be null. */
  function OrText(v: Option<string>, fallback: string): (r: string)
    ensures v.Some? && v.value != "" ==> r == v.value
    ensures v.None? || v.value == "" ==> r == fallback
  {
    if v.Some? && v.value != "" then v.value else fallback
  }

  /** A table row as a tier, with the display defaults for missing columns. */
  function TierFromRow(row: TierRow): (t: TicketTier)
    ensures t.id == row.id && t.name == row.name && t.stock == row.stock
    ensures t.description == OrText(row.description, "")
    ensures t.color == OrText(row.color, "text-gray-400")
    ensures t.gradient == OrText(row.gradient, "from-gray-600/20 to-gray-900/40")
    ensures t.border == OrText(row.border, "border-white/10")
    ensures t.perks == (if row.perks.Some? then row.perks.value else [])
  {
    TicketTier(row.id, row.name, OrText(row.description, ""), row.stock,
               OrText(row.color, "text-gray-400"), OrText(row.gradient, "from-gray-600/20 to-gray-900/40"),
               OrText(row.border, "border-white/10"), if row.perks.Some? then row.perks.value else [])
  }

  /** `s.map(f)`. */
  function MapSeq<A, B>(s: seq<A>, f: A -> B): (r: seq<B>)
    ensures |r| == |s|
    ensures forall i :: 0 <= i < |s| ==> r[i] == f(s[i])
  {
    if s == [] then [] else [f(s[0])] + MapSeq(s[1..], f)
  }

  lemma MapSeqOfJoin<A, B>(a: seq<A>, b: seq<A>, f: A -> B)
    ensures MapSeq(a + b, f) == MapSeq(a, f) + MapSeq(b, f)
  {
    var l, r := MapSeq(a + b, f), MapSeq(a, f) + MapSeq(b, f);
    assert |l| == |r|;
    forall i | 0 <= i < |l|
      ensures l[i] == r[i]
    {
      if i < |a| {
        assert l[i] == f(a[i]) == r[i];
      } else {
        assert l[i] == f(b[i - |a|]) == r[i];
      }
    }
  }

  lemma MultisetWithout<T>(s: seq<T>, k: int)
    requires 0 <= k < |s|
    ensures multiset(s[..k] + s[k + 1..]) == multiset(s) - multiset{s[k]}
  {
    assert s == s[..k] + [s[k]] + s[k + 1..];
  }

  /** Removing one copy of the same element from two permutations of each
      other leaves permutations of each other. */
  lemma MultisetDropMatch<T>(a: seq<T>, b: seq<T>, k: int)
    requires multiset(a) == multiset(b) && |a| > 0 && 0 <= k < |b| && b[k] == a[0]
    ensures multiset(a[1..]) == multiset(b[..k] + b[k + 1..])
  {
    assert a[..0] + a[1..] == a[1..];
    MultisetWithout(a, 0);
    MultisetWithout(b, k);
  }

  /** The image of a sequence is the image without position `k`, plus the
      image of the element at `k`. */
  lemma MapSeqCut<A, B>(s: seq<A>, f: A -> B, k: int)
    requires 0 <= k < |s|
    ensures multiset(MapSeq(s, f)) == multiset(MapSeq(s[..k] + s[k + 1..], f)) + multiset{f(s[k])}
  {
    var before, after := s[..k], s[k + 1..];
    MapSeqSplit(s, f, k);
    MapSeqOfJoin(before, after, f);
    MultisetOfSplit(MapSeq(before, f), f(s[k]), MapSeq(after, f));
  }

  lemma MapSeqSplit<A, B>(s: seq<A>, f: A -> B, k: int)
    requires 0 <= k < |s|
    ensures MapSeq(s, f) == MapSeq(s[..k], f) + [f(s[k])] + MapSeq(s[k + 1..], f)
  {
    var l, r := MapSeq(s, f), MapSeq(s[..k], f) + [f(s[k])] + MapSeq(s[k + 1..], f);
    forall i | 0 <= i < |l|
      ensures l[i] == r[i]
    {
      if i > k {
        assert s[k + 1..][i - k - 1] == s[i];
      }
    }
  }

  lemma MultisetOfSplit<T>(p: seq<T>, x: T, q: seq<T>)
    ensures multiset(p + [x] + q) == multiset(p + q) + multiset{x}
  {
  }

  /** Mapping carries a permutation over: each image appears as often as the
      elements it comes from. */
  lemma {:induction false} MapSeqPermute<A, B>(a: seq<A>, b: seq<A>, f: A -> B)
    requires multiset(a) == multiset(b)
    ensures multiset(MapSeq(a, f)) == multiset(MapSeq(b, f))
    decreases |a|
  {
    if a == [] {
      assert |b| == |multiset(b)| == 0;
    } else {
      assert a[0] in multiset(b);
      assert a[0] in b;
      var k :| 0 <= k < |b| && b[k] == a[0];
      MultisetDropMatch(a, b, k);
      MapSeqPermute(a[1..], b[..k] + b[k + 1..], f);
      assert a[..0] + a[1..] == a[1..];
      MapSeqCut(a, f, 0);
      MapSeqCut(b, f, k);
    }
  }

  function TiersFromRows(rows: seq<TierRow>): (ts: seq<TicketTier>)
    ensures |ts| == |rows|
    ensures forall i :: 0 <= i < |rows| ==> ts[i] == TierFromRow(rows[i])
  {
    MapSeq(rows, TierFromRow)
  }

  /** The answer of the tier query. */
  datatype TierFetch = FetchError | FetchThrew | FetchRows(rows: seq<TierRow>)

  function RowKey(row: TierRow): int { TierOrder(row.id) }

  /** Mapping a sorted permutation of the rows gives sorted tiers made from
      exactly the rows. */
  lemma TiersOfSortedRows(rows: seq<TierRow>, sorted: seq<TierRow>)
    requires SortedBy(sorted, RowKey) && multiset(sorted) == multiset(rows)
    ensures SortedBy(TiersFromRows(sorted), TierKey)
    ensures forall t :: t in TiersFromRows(sorted) <==> exists row :: row in rows && t == TierFromRow(row)
    ensures multiset(TiersFromRows(sorted)) == multiset(TiersFromRows(rows))
  {
    TiersKeepOrder(sorted);
    TiersKeepRows(rows, sorted);
    MapSeqPermute(sorted, rows, TierFromRow);
  }


  lemma TiersKeepOrder(sorted: seq<TierRow>)
    requires SortedBy(sorted, RowKey)
    ensures SortedBy(TiersFromRows(sorted), TierKey)
  {
    var ts := TiersFromRows(sorted);
    forall i, j | 0 <= i < j < |ts|
      ensures TierKey(ts[i]) <= TierKey(ts[j])
    {
      assert TierKey(ts[i]) == RowKey(sorted[i]) && TierKey(ts[j]) == RowKey(sorted[j]);
    }
  }

  lemma TiersKeepRows(rows: seq<TierRow>, sorted: seq<TierRow>)
    requires multiset(sorted) == multiset(rows)
    ensures forall t :: t in TiersFromRows(sorted) <==> exists row :: row in rows && t == TierFromRow(row)
  {
    var ts := TiersFromRows(sorted);
    forall t | t in ts
      ensures exists row :: row in rows && t == TierFromRow(row)
    {
      var i :| 0 <= i < |ts| && ts[i] == t;
      assert sorted[i] in multiset(sorted);
      assert sorted[i] in rows;
    }
    forall t | exists row :: row in rows && t == TierFromRow(row)
      ensures t in ts
    {
      var row :| row in rows && t == TierFromRow(row);
      assert row in multiset(rows);
      assert row in sorted;
      var i :| 0 <= i < |sorted| && sorted[i] == row;
      assert ts[i] == t;
    }
  }

  /** The tiers after the initial fetch: the previous ones on an error or an
      empty answer, otherwise one tier per row, in platinum, emerald, standard
      order. */
  function LoadedTiers(prev: seq<TicketTier>, fetch: TierFetch): (r: seq<TicketTier>)
    ensures !(fetch.FetchRows? && |fetch.rows| > 0) ==> r == prev
    ensures fetch.FetchRows? && |fetch.rows| > 0 ==>
              SortedBy(r, TierKey) && |r| == |fetch.rows|
              && (forall t :: t in r <==> exists row :: row in fetch.rows && t == TierFromRow(row))
              && multiset(r) == multiset(TiersFromRows(fetch.rows))
  {
    if fetch.FetchRows? && |fetch.rows| > 0 then
      var sorted := SortBy(fetch.rows, RowKey);
      TiersOfSortedRows(fetch.rows, sorted);
      TiersFromRows(sorted)
    else prev
  }

  /** A change-feed record of the tier table. */
  datatype TierUpdate = TierUpdate(
    id: string, stock: int, name: Option<string>, description: Option<string>,
    perks: Option<seq<string>>)

  function MergeOne(t: TicketTier, u: TierUpdate): TicketTier {
    if t.id == u.id then
      t.(stock := u.stock, name := OrText(u.name, t.name),
         description := OrText(u.description, t.description),
         perks := if u.perks.Some? then u.perks.value else t.perks)
    else t
  }

  /** The change feed: only the tier with the record's id changes, taking the
      new stock and, where present and non-empty, the new texts. */
  function MergeTierUpdate(ts: seq<TicketTier>, u: TierUpdate): (r: seq<TicketTier>)
    ensures |r| == |ts|
    ensures forall i :: 0 <= i < |ts| ==> r[i].id == ts[i].id
    ensures forall i :: 0 <= i < |ts| && ts[i].id != u.id ==> r[i] == ts[i]
    ensures forall i :: 0 <= i < |ts| && ts[i].id == u.id ==>
              r[i].stock == u.stock && r[i].color == ts[i].color && r[i].gradient == ts[i].gradient
              && r[i].border == ts[i].border
              && r[i].name == OrText(u.name, ts[i].name)
              && r[i].description == OrText(u.description, ts[i].description)
              && r[i].perks == (if u.perks.Some? then u.perks.value else ts[i].perks)
  {
    if ts == [] then [] else [MergeOne(ts[0], u)] + MergeTierUpdate(ts[1..], u)
  }

  /** A record delivered twice leaves the tiers as one delivery does. */
  lemma {:induction false} MergeTierUpdateIdempotent(ts: seq<TicketTier>, u: TierUpdate)
    ensures MergeTierUpdate(MergeTierUpdate(ts, u), u) == MergeTierUpdate(ts, u)
  {
    var m := MergeTierUpdate(ts, u);
    forall i | 0 <= i < |ts|
      ensures MergeTierUpdate(m, u)[i] == m[i]
    {
      if ts[i].id == u.id {
        assert m[i].id == u.id;
      }
    }
  }

  /** The tiers after a change-feed record: merged, then sorted again. */
  function UpdatedTiers(ts: seq<TicketTier>, u: TierUpdate): (r: seq<TicketTier>)
    ensures SortedBy(r, TierKey) && |r| == |ts|
    ensures multiset(r) == multiset(MergeTierUpdate(ts, u))
  {
    SortBy(MergeTierUpdate(ts, u), TierKey)
  }

  /** The built-in tiers are already in order, so sorting them changes nothing. */
  lemma InitialTiersSorted()
    ensures SortedBy(INITIAL_TIERS, TierKey)
  {
  }

  // ---------------------------------------------------------------- ticket ids

  /** The number of ids issued: one for the registrant and one per companion
      (`Array.from({ length })` makes none for a length below one). */
  function TicketCount(guestCount: int): (n: nat)
    ensures guestCount >= 0 ==> n == 1 + guestCount
  {
    if 1 + guestCount > 0 then 1 + guestCount else 0
  }

  /** Three characters of `Math.random().toString(36)`, after its `0.`. */
  function RandomSegment(random: string): (r: string)
    ensures |r| <= 3 && (|random| >= 5 ==> |r| == 3)
    ensures forall i :: 0 <= i < |r| ==> 2 + i < |random| && r[i] == UpperChar(random[2 + i])
  {
    ToUpper(Substring(random, 2, 5))
  }

  /** One ticket id: `LUM-`, the name's first four letters upper-cased, a
      random segment, and the ticket's position after the last dash. */
  function TicketId(firstName: string, random: string, i: nat): (r: string)
    ensures "LUM-" <= r && "LUM-" + ToUpper(Prefix(firstName, 4)) + "-" <= r
    ensures AfterLastDash(r) == NatToString(i)
  {
    var head := "LUM-" + ToUpper(Prefix(firstName, 4)) + "-" + RandomSegment(random);
    AfterLastDashOfJoin(head, NatToString(i));
    head + "-" + NatToString(i)
  }

  /** The ids of a final submission, one per random draw. */
  function TicketIds(firstName: string, randoms: seq<string>): (ids: seq<string>)
    ensures |ids| == |randoms|
    ensures forall i :: 0 <= i < |ids| ==> "LUM-" <= ids[i]
  {
    seq(|randoms|, i requires 0 <= i < |randoms| => TicketId(firstName, randoms[i], i))
  }

  /** The text after the last `-`. */
  function AfterLastDash(s: string): (r: string)
    ensures |r| <= |s| && r == s[|s| - |r|..]
    ensures forall i :: 0 <= i < |r| ==> r[i] != '-'
  {
    if s == [] || s[|s| - 1] == '-' then []
    else AfterLastDash(s[..|s| - 1]) + [s[|s| - 1]]
  }

  lemma {:induction false} AfterLastDashOfJoin(p: string, d: string)
    requires forall i :: 0 <= i < |d| ==> d[i] != '-'
    ensures AfterLastDash(p + "-" + d) == d
    decreases |d|
  {
    var s := p + "-" + d;
    if d != [] {
      assert s[..|s| - 1] == p + "-" + d[..|d| - 1];
      AfterLastDashOfJoin(p, d[..|d| - 1]);
      assert d == d[..|d| - 1] + [d[|d| - 1]];
    }
  }

  /** Every id ends in `-` and its own position, so all ids of one submission
      are different, whatever the name and the random draws. */
  lemma TicketIdsDistinct(firstName: string, randoms: seq<string>)
    ensures var ids := TicketIds(firstName, randoms);
            (forall i :: 0 <= i < |ids| ==> AfterLastDash(ids[i]) == NatToString(i))
            && forall i, j :: 0 <= i < j < |ids| ==> ids[i] != ids[j]
  {
    var ids := TicketIds(firstName, randoms);
    forall i, j | 0 <= i < j < |ids|
      ensures ids[i] != ids[j]
    {
      if ids[i] == ids[j] {
        assert NatToString(i) == NatToString(j);
        NatToStringInjective(i, j);
      }
    }
  }

  // ---------------------------------------------------------------- wizard

  /** The procedure's answer as the form sees it. */
  datatype ClaimResult = RpcError | RpcThrew | Claimed(remaining: int)

  /** The form the wizard starts with: the given registration's values where
      they are truthy, otherwise empty texts, the forced winner as the venue,
      no companions, attending, and the current time. */
  function InitialFormData(initial: Option<RsvpData>, winner: Option<VenueOption>, now: int): (d: RsvpData)
    ensures d.ticketIds.None?
    ensures initial.None? ==> d.id.None? && d.firstName == "" && d.lastName == "" && d.email == ""
                              && d.selectedVenue == winner && d.selectedTier.None? && d.guestCount == 0
                              && d.isAttending && d.songRequest == "" && d.timestamp == now
    ensures initial.Some? ==>
              var i := initial.value;
              d.id == i.id && d.firstName == i.firstName && d.lastName == i.lastName && d.email == i.email
              && d.selectedTier == i.selectedTier && d.guestCount == i.guestCount
              && d.isAttending == i.isAttending && d.songRequest == i.songRequest
              && d.selectedVenue == (if i.selectedVenue.Some? then i.selectedVenue else winner)
              && d.timestamp == (if i.timestamp != 0 then i.timestamp else now)
  {
    match initial
    case None => RsvpData(None, "", "", "", winner, None, 0, true, "", now, None)
    case Some(i) =>
      RsvpData(i.id, i.firstName, i.lastName, i.email,
               if i.selectedVenue.Some? then i.selectedVenue else winner,
               i.selectedTier, i.guestCount, i.isAttending, i.songRequest,
               if i.timestamp != 0 then i.timestamp else now, None)
  }

  /** The game opens from the tier step of the closed-voting flow; the button is
      enabled only once a tier with stock left is picked. */
  predicate LaunchesGame(step: int, isVotingClosed: bool, d: RsvpData) {
    step == 3 && isVotingClosed && GameButtonEnabled(d)
  }

  /** Where the "next" button leads: on by one at most, never past step 6 and
      never out of the current flow; out of step 1 only with valid personal
      data, out of the vote step only with a venue, and never out of step 3
      (the vote confirmation, or the tier choice that the game and the claim
      leave instead). */
  function NextStep(step: int, isVotingClosed: bool, d: RsvpData): (r: int)
    requires 1 <= step <= 6
    ensures 1 <= r <= 6
    ensures step <= TotalSteps(isVotingClosed) ==> r <= TotalSteps(isVotingClosed)
    ensures r == step || r == step + 1
    ensures step == 1 ==> (r == 2 <==> PersonalDataValid(d))
    ensures step == 2 ==> (r == 3 <==> isVotingClosed || d.selectedVenue.Some?)
    ensures step == 3 ==> r == 3
    ensures 4 <= step ==> r == (if step == 6 then 6 else step + 1)
  {
    if step == 1 then (if PersonalDataValid(d) then 2 else 1)
    else if step == 2 then (if !isVotingClosed && d.selectedVenue.None? then 2 else 3)
    else if step == 3 then 3
    else if step == 4 then 5
    else 6
  }


  /** The wizard's state, updated in place by its handlers. The voting status
      is a prop recomputed by the app on every render, so it is a field that
      `OnVotingStatusChange` can flip while the wizard is open. */
  class Wizard {
    var step: int
    var formData: RsvpData
    var errors: map<Field, string>
    var showGame: bool
    var isProcessing: bool
    var tiers: seq<TicketTier>
    var claimError: Option<string>
    var isVotingClosed: bool

    /** The step is one of the six steps of the longest flow. (It stays within
        the current flow as long as the voting status does not change: see
        `NextStep` and `HandlePrevStep`.) */
    ghost predicate Valid()
      reads this
    {
      1 <= step <= 6
    }

    constructor(initial: Option<RsvpData>, config: EventConfig, venues: seq<VenueOption>,
                isVotingClosed: bool, now: int)
      ensures Valid() && step == 1 && errors == map[] && tiers == INITIAL_TIERS
      ensures formData == InitialFormData(initial, DetailsCard.ForcedWinner(config, venues), now)
      ensures !showGame && !isProcessing && claimError.None?
      ensures this.isVotingClosed == isVotingClosed
    {
      this.isVotingClosed := isVotingClosed;
      step := 1;
      formData := InitialFormData(initial, DetailsCard.ForcedWinner(config, venues), now);
      errors := map[];
      showGame := false;
      isProcessing := false;
      tiers := INITIAL_TIERS;
      claimError := None;
    }

    /** A re-render with a new voting status (the deadline passed, or the
        organiser changed it): only the flag changes. */
    method OnVotingStatusChange(closed: bool)
      modifies this
      ensures isVotingClosed == closed
      ensures step == old(step) && formData == old(formData) && errors == old(errors)
      ensures showGame == old(showGame) && isProcessing == old(isProcessing)
      ensures tiers == old(tiers) && claimError == old(claimError)
    {
      isVotingClosed := closed;
    }

    method UpdateField(edit: FieldEdit)
      modifies this
      ensures formData == ApplyEdit(old(formData), edit)
      ensures errors == ClearError(old(errors), FieldOf(edit))
      ensures step == old(step) && showGame == old(showGame) && isVotingClosed == old(isVotingClosed)
      ensures isProcessing == old(isProcessing) && tiers == old(tiers) && claimError == old(claimError)
    {
      formData := ApplyEdit(formData, edit);
      var field := FieldOf(edit);
      if field in errors && errors[field] != "" {
        errors := errors - {field};
      }
    }

    /** Clicking a tier card: a sold-out tier is ignored. */
    method SelectTier(tier: TicketTier)
      modifies this
      ensures IsSoldOut(tier) ==> formData == old(formData) && errors == old(errors)
      ensures !IsSoldOut(tier) ==>
                formData == old(formData).(selectedTier := Some(tier))
                && errors == ClearError(old(errors), SelectedTier)
      ensures step == old(step) && showGame == old(showGame) && isVotingClosed == old(isVotingClosed)
      ensures isProcessing == old(isProcessing) && tiers == old(tiers) && claimError == old(claimError)
    {
      if !IsSoldOut(tier) {
        UpdateField(PickTier(Some(tier)));
      }
    }

    /** The companion buttons. */
    method ChangeGuests(plus: bool)
      modifies this
      ensures formData == old(formData).(guestCount :=
                if plus then MoreGuests(old(formData.guestCount)) else FewerGuests(old(formData.guestCount)))
      ensures errors == ClearError(old(errors), GuestCount)
      ensures step == old(step) && showGame == old(showGame) && isVotingClosed == old(isVotingClosed)
      ensures isProcessing == old(isProcessing) && tiers == old(tiers) && claimError == old(claimError)
    {
      if plus {
        UpdateField(SetGuestCount(MoreGuests(formData.guestCount)));
      } else {
        UpdateField(SetGuestCount(FewerGuests(formData.guestCount)));
      }
    }

    /** Step 1's check: the errors shown become those of the form. */
    method ValidatePersonalData()
      modifies this
      ensures errors == ValidateStep1(old(formData))
      ensures step == old(step) && formData == old(formData) && showGame == old(showGame)
      ensures isVotingClosed == old(isVotingClosed) && tiers == old(tiers) && claimError == old(claimError)
      ensures isProcessing == old(isProcessing)
    {
      errors := ValidateStep1(formData);
    }

    /** The step move of the "next" button. */
    method Advance()
      requires 1 <= step <= 6
      modifies this
      ensures step == NextStep(old(step), isVotingClosed, old(formData))
      ensures errors == old(errors) && formData == old(formData) && showGame == old(showGame)
      ensures isVotingClosed == old(isVotingClosed) && tiers == old(tiers) && claimError == old(claimError)
      ensures isProcessing == old(isProcessing)
    {
      step := NextStep(step, isVotingClosed, formData);
    }

    /** The "next" button of each step. */
    method HandleNextStep()
      requires Valid()
      modifies this
      ensures Valid()
      ensures step == NextStep(old(step), isVotingClosed, old(formData))
      ensures old(step) <= TotalSteps(isVotingClosed) ==> step <= TotalSteps(isVotingClosed)
      ensures errors == if old(step) == 1 then ValidateStep1(old(formData)) else old(errors)
      ensures showGame == (old(showGame) || LaunchesGame(old(step), isVotingClosed, old(formData)))
      ensures formData == old(formData) && tiers == old(tiers) && claimError == old(claimError)
      ensures isProcessing == old(isProcessing) && isVotingClosed == old(isVotingClosed)
    {
      if step == 1 {
        ValidatePersonalData();
      }
      showGame := showGame || LaunchesGame(step, isVotingClosed, formData);
      Advance();
    }

    /** The "back" button: returns whether the wizard is left for the details card. */
    method HandlePrevStep() returns (leave: bool)
      requires Valid()
      modifies this
      ensures Valid()
      ensures leave <==> old(step) == 1
      ensures step == (if leave then old(step) else old(step) - 1)
      ensures formData == old(formData) && errors == old(errors) && showGame == old(showGame)
      ensures tiers == old(tiers) && claimError == old(claimError) && isProcessing == old(isProcessing)
      ensures isVotingClosed == old(isVotingClosed)
    {
      if step == 1 {
        leave := true;
      } else {
        leave := false;
        step := step - 1;
      }
    }

    /** The game's cancel button. */
    method CancelGame()
      requires Valid()
      modifies this
      ensures Valid() && !showGame && step == old(step) && formData == old(formData)
      ensures errors == old(errors) && tiers == old(tiers) && claimError == old(claimError)
      ensures isProcessing == old(isProcessing) && isVotingClosed == old(isVotingClosed)
    {
      showGame := false;
    }

    /** The completion callback of a won game, with the procedure's answer.
        The game schedules it after its win animation, so it may also arrive
        once the game was cancelled. */
    method OnGameComplete(result: ClaimResult)
      requires Valid()
      modifies this
      ensures Valid() && !showGame
      ensures old(formData.selectedTier).None? ==>
                claimError.None? && step == old(step) && formData == old(formData)
      ensures old(formData.selectedTier).Some? && result == RpcError ==>
                claimError == Some(MSG_CLAIM_ERROR) && step == old(step) && formData == old(formData)
      ensures old(formData.selectedTier).Some? && result == RpcThrew ==>
                claimError == Some(MSG_CONNECTION_ERROR) && step == old(step) && formData == old(formData)
      ensures old(formData.selectedTier).Some? && result == Claimed(-1) ==>
                claimError == Some(SoldOutMessage(old(formData.selectedTier).value.name))
                && step == old(step) && formData == old(formData).(selectedTier := None)
      ensures old(formData.selectedTier).Some? && result.Claimed? && result.remaining != -1 ==>
                claimError.None? && step == 4 && formData == old(formData)
      ensures errors == if old(formData.selectedTier).Some? && result == Claimed(-1)
                        then ClearError(old(errors), SelectedTier) else old(errors)
      ensures tiers == old(tiers) && isProcessing == old(isProcessing) && isVotingClosed == old(isVotingClosed)
    {
      showGame := false;
      claimError := None;
      if formData.selectedTier.None? {
        return;
      }
      match result
      case RpcError =>
        claimError := Some(MSG_CLAIM_ERROR);
      case RpcThrew =>
        claimError := Some(MSG_CONNECTION_ERROR);
      case Claimed(remaining) =>
        if remaining == -1 {
          claimError := Some(SoldOutMessage(formData.selectedTier.value.name));
          UpdateField(PickTier(None));
        } else {
          step := 4;
        }
    }

    /** The vote-only submission: the form, stamped with the current time. */
    method HandleVoteSubmit(now: int) returns (data: RsvpData)
      ensures data == formData.(timestamp := now)
    {
      data := formData.(timestamp := now);
    }

    /** The final submission: one id per person, from the given random draws. */
    method HandleFinalSubmit(now: int, randoms: seq<string>) returns (data: RsvpData)
      requires |randoms| == TicketCount(formData.guestCount)
      modifies this
      ensures isProcessing && step == old(step) && formData == old(formData)
      ensures errors == old(errors) && showGame == old(showGame) && tiers == old(tiers)
      ensures claimError == old(claimError) && isVotingClosed == old(isVotingClosed)
      ensures data == formData.(timestamp := now, ticketIds := Some(TicketIds(formData.firstName, randoms)))
      ensures |data.ticketIds.value| == TicketCount(formData.guestCount)
    {
      isProcessing := true;
      var ids := TicketIds(formData.firstName, randoms);
      data := formData.(timestamp := now, ticketIds := Some(ids));
    }

    method LoadTiers(fetch: TierFetch)
      modifies this
      ensures tiers == LoadedTiers(old(tiers), fetch)
      ensures step == old(step) && formData == old(formData) && showGame == old(showGame)
      ensures errors == old(errors) && claimError == old(claimError) && isProcessing == old(isProcessing)
      ensures isVotingClosed == old(isVotingClosed)
    {
      tiers := LoadedTiers(tiers, fetch);
    }

    method OnTierUpdate(u: TierUpdate)
      modifies this
      ensures tiers == UpdatedTiers(old(tiers), u)
      ensures step == old(step) && formData == old(formData) && showGame == old(showGame)
      ensures errors == old(errors) && claimError == old(claimError) && isProcessing == old(isProcessing)
      ensures isVotingClosed == old(isVotingClosed)
    {
      tiers := UpdatedTiers(tiers, u);
    }
  }
}
