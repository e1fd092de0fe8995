/** The event details card (`components/DetailsCard.tsx`): the countdown to the
    voting deadline, whether voting is closed, the forced winner and the venues
    it leaves on show, the map target, the call to action at the bottom, and
    the conversion of a venue's video link into an embeddable address. */
module DetailsCard {
  import opened Text
  import opened Types

  const SECOND_MS: nat := 1000
  const MINUTE_MS: nat := 60000
  const HOUR_MS: nat := 3600000
  const DAY_MS: nat := 86400000

  /** Days, hours, minutes and seconds left. */
  datatype TimeLeft = TimeLeft(d: nat, h: nat, m: nat, s: nat)

  function TotalMs(t: TimeLeft): nat {
    DAY_MS * t.d + HOUR_MS * t.h + MINUTE_MS * t.m + SECOND_MS * t.s
  }

  /** The countdown tick: nothing once the deadline is reached, otherwise the
      time left in mixed radix, rounded down to whole seconds. */
  function Countdown(end: int, now: int): (r: Option<TimeLeft>)
    ensures r.None? <==> end - now <= 0
    ensures r.Some? ==> r.value.h < 24 && r.value.m < 60 && r.value.s < 60
    ensures r.Some? ==> TotalMs(r.value) <= end - now < TotalMs(r.value) + SECOND_MS
  {
    var diff := end - now;
    if diff <= 0 then None
    else
      var t := TimeLeft(diff / DAY_MS, (diff % DAY_MS) / HOUR_MS, (diff % HOUR_MS) / MINUTE_MS,
                        (diff % MINUTE_MS) / SECOND_MS);
      MixedRadix(diff);
      Some(t)
  }

  /** The four fields of the countdown add back up to the time left. */
  lemma MixedRadix(diff: nat)
    ensures (diff % DAY_MS) / HOUR_MS < 24 && (diff % HOUR_MS) / MINUTE_MS < 60
    ensures (diff % MINUTE_MS) / SECOND_MS < 60
    ensures var t := TimeLeft(diff / DAY_MS, (diff % DAY_MS) / HOUR_MS, (diff % HOUR_MS) / MINUTE_MS,
                              (diff % MINUTE_MS) / SECOND_MS);
            TotalMs(t) <= diff < TotalMs(t) + SECOND_MS
  {
    var d, rd := diff / DAY_MS, diff % DAY_MS;
    var h, rh := rd / HOUR_MS, rd % HOUR_MS;
    var m, rm := rh / MINUTE_MS, rh % MINUTE_MS;
    ModOfMultiple(diff, d, rd, h, rh);
    ModOfMultiple2(diff, 24 * d + h, rh, m, rm);
  }

  /** Removing whole days and then whole hours leaves the remainder by hours. */
  lemma ModOfMultiple(x: nat, d: nat, rd: nat, h: nat, rh: nat)
    requires x == 86400000 * d + rd && rd < 86400000
    requires rd == 3600000 * h + rh && rh < 3600000
    ensures x % 3600000 == rh && x == 3600000 * (24 * d + h) + rh
  {
    assert x == 3600000 * (24 * d + h) + rh;
  }

  /** Removing whole hours and then whole minutes leaves the remainder by minutes. */
  lemma ModOfMultiple2(x: nat, hs: nat, rh: nat, m: nat, rm: nat)
    requires x == 3600000 * hs + rh && rh < 3600000
    requires rh == 60000 * m + rm && rm < 60000
    ensures x % 60000 == rm && rh / 60000 == m
  {
    assert x == 60000 * (60 * hs + m) + rm;
  }

  /** `new Date(deadline).getTime() < Date.now()` behind a truthiness test: closed
      only for a deadline that parses to a time strictly before now. */
  predicate IsVotingClosed(config: EventConfig, now: int) {
    config.votingDeadline.At? && config.votingDeadline.ms < now
  }

  /** Once voting has closed it stays closed as time goes on (for the same
      configuration). */
  lemma VotingStaysClosed(config: EventConfig, now: int, later: int)
    requires now <= later
    ensures IsVotingClosed(config, now) ==> IsVotingClosed(config, later)
  {
  }

  /** The configured winner, when its id is set and names a listed venue. */
  function ForcedWinner(config: EventConfig, venues: seq<VenueOption>): (r: Option<VenueOption>)
    ensures r.Some? ==> r.value in venues && HasForcedWinnerId(config)
                        && r.value.id == config.winningVenueId.value
    ensures r.None? ==> !HasForcedWinnerId(config)
                        || forall v :: v in venues ==> v.id != config.winningVenueId.value
  {
    if HasForcedWinnerId(config) then FindVenue(venues, config.winningVenueId.value) else None
  }

  /** The time left shown in the countdown panel: only a deadline that parses
      counts down; an unparsable one leaves the panel on "voting finished". */
  function DeadlineCountdown(deadline: Deadline, now: int): (r: Option<TimeLeft>)
    ensures r.Some? <==> deadline.At? && now < deadline.ms
    ensures r.Some? ==> r.value.h < 24 && r.value.m < 60 && r.value.s < 60
    ensures r.Some? ==> TotalMs(r.value) <= deadline.ms - now < TotalMs(r.value) + SECOND_MS
  {
    if deadline.At? then Countdown(deadline.ms, now) else None
  }

  /** The countdown panel is shown iff no winner is forced and a deadline is set. */
  predicate CountdownShown(config: EventConfig, winner: Option<VenueOption>) {
    winner.None? && config.votingDeadline != NoDeadline
  }

  /** The venues listed in the venues tab: all of them, or only the winner's. */
  function ListedVenues(winner: Option<VenueOption>, venues: seq<VenueOption>): (r: seq<VenueOption>)
    ensures winner.None? ==> r == venues
    ensures winner.Some? ==> forall v :: v in r ==> v in venues && v.id == winner.value.id
    ensures winner.Some? ==> forall v :: v in venues && v.id == winner.value.id ==> v in r
    ensures |r| <= |venues|
  {
    if winner.None? || venues == [] then venues
    else
      var rest := ListedVenues(winner, venues[1..]);
      if venues[0].id == winner.value.id then [venues[0]] + rest else rest
  }

  /** A forced winner taken from the list is listed. */
  lemma WinnerListed(config: EventConfig, venues: seq<VenueOption>)
    requires ForcedWinner(config, venues).Some?
    ensures ForcedWinner(config, venues).value in ListedVenues(ForcedWinner(config, venues), venues)
  {
  }

  /** `winningVenue || previewVenue || venues[0]`. */
  function TargetVenueForMap(winner: Option<VenueOption>, preview: Option<VenueOption>,
                             venues: seq<VenueOption>): (r: Option<VenueOption>)
    ensures winner.Some? ==> r == winner
    ensures winner.None? && preview.Some? ==> r == preview
    ensures winner.None? && preview.None? ==> (r.Some? <==> |venues| > 0)
    ensures winner.None? && preview.None? && r.Some? ==> r.value == venues[0]
  {
    if winner.Some? then winner
    else if preview.Some? then preview
    else if |venues| > 0 then Some(venues[0])
    else None
  }

  /** The preview venue the card starts with: the winner, else the first venue. */
  function InitialPreview(winner: Option<VenueOption>, venues: seq<VenueOption>): (r: Option<VenueOption>)
    ensures winner.Some? ==> r == winner
    ensures winner.None? ==> r == if |venues| > 0 then Some(venues[0]) else None
  {
    TargetVenueForMap(winner, None, venues)
  }

  /** A map target always exists when there is at least one venue. */
  lemma MapTargetExists(winner: Option<VenueOption>, venues: seq<VenueOption>)
    requires |venues| > 0
    ensures TargetVenueForMap(winner, InitialPreview(winner, venues), venues).Some?
    ensures winner.None? ==> TargetVenueForMap(winner, InitialPreview(winner, venues), venues) == Some(venues[0])
  {
  }

  /** What the bottom of the card offers. */
  datatype Footer = AlreadyVotedPanel | ClaimPassButton | RegisterAndVoteButton

  function FooterFor(hasAlreadyVoted: bool, winner: Option<VenueOption>, votingClosed: bool): (r: Footer)
    ensures r == AlreadyVotedPanel <==> hasAlreadyVoted && winner.None?
    ensures r == ClaimPassButton <==> !(hasAlreadyVoted && winner.None?) && (winner.Some? || votingClosed)
  {
    if hasAlreadyVoted && winner.None? then AlreadyVotedPanel
    else if winner.Some? || votingClosed then ClaimPassButton
    else RegisterAndVoteButton
  }

  /** Once a winner is forced, every guest is offered to claim a pass. */
  lemma ForcedWinnerOffersClaim(hasAlreadyVoted: bool, config: EventConfig,
                                venues: seq<VenueOption>, now: int)
    requires ForcedWinner(config, venues).Some?
    ensures FooterFor(hasAlreadyVoted, ForcedWinner(config, venues), IsVotingClosed(config, now))
            == ClaimPassButton
  {
  }

  /** The kind of embed a video link becomes, with its address. */
  datatype VideoInfo = NoVideo | YouTube(embed: string) | Vimeo(embed: string) | Frame(embed: string)

  const YOUTUBE_EMBED: string := "https://www.youtube.com/embed/"
  const VIMEO_PLAYER: string := "https://player.vimeo.com/video/"

  function YouTubeStops(): set<char> { {'?', '#', '&'} }

  /** The YouTube id: after the first `shorts/`, else after the first `v=`,
      else after the first `youtu.be/`, cut at the first `?`, `#` or `&`;
      empty when none of the markers occurs. */
  function YouTubeId(url: string): (id: string)
    ensures Contains(url, "shorts/") ==> IsCutAt(id, SecondPiece(url, "shorts/"), YouTubeStops())
    ensures !Contains(url, "shorts/") && Contains(url, "v=") ==> IsCutAt(id, SecondPiece(url, "v="), YouTubeStops())
    ensures !Contains(url, "shorts/") && !Contains(url, "v=") && Contains(url, "youtu.be/") ==>
              IsCutAt(id, SecondPiece(url, "youtu.be/"), YouTubeStops())
    ensures !Contains(url, "shorts/") && !Contains(url, "v=") && !Contains(url, "youtu.be/") ==> id == ""
    ensures forall i :: 0 <= i < |id| ==> id[i] !in YouTubeStops()
  {
    if Contains(url, "shorts/") then CutAtAny(SecondPiece(url, "shorts/"), YouTubeStops())
    else if Contains(url, "v=") then CutAtAny(SecondPiece(url, "v="), YouTubeStops())
    else if Contains(url, "youtu.be/") then CutAtAny(SecondPiece(url, "youtu.be/"), YouTubeStops())
    else ""
  }

  function YouTubeParams(id: string, interactive: bool): string {
    if interactive then "?autoplay=1&mute=0&controls=1"
    else "?autoplay=1&mute=1&loop=1&playlist=" + id + "&controls=0"
  }

  function YouTubeEmbed(id: string, interactive: bool): string {
    YOUTUBE_EMBED + id + YouTubeParams(id, interactive)
  }

  /** Cutting the embed address after its fixed prefix gives the id back. */
  lemma YouTubeEmbedReadsBack(id: string, interactive: bool)
    requires forall i :: 0 <= i < |id| ==> id[i] !in YouTubeStops()
    ensures var e := YouTubeEmbed(id, interactive);
            YOUTUBE_EMBED <= e && CutAtAny(e[|YOUTUBE_EMBED|..], YouTubeStops()) == id
  {
    var e := YouTubeEmbed(id, interactive);
    var p := YouTubeParams(id, interactive);
    assert e == YOUTUBE_EMBED + (id + p);
    assert e[|YOUTUBE_EMBED|..] == id + p;
    CutAtAnyOfJoin(id, p, YouTubeStops());
  }

  /** The Vimeo id and private hash: the first two `/`-separated segments after
      `vimeo.com/`, once the query and fragment are cut off. */
  function VimeoPath(url: string): (r: string)
    requires Contains(url, "vimeo.com/")
    ensures IsCutAt(r, SecondPiece(url, "vimeo.com/"), {'?', '#'})
  {
    CutAtAny(SecondPiece(url, "vimeo.com/"), {'?', '#'})
  }

  function VimeoId(url: string): (id: string)
    ensures Contains(url, "vimeo.com/") ==> IsCutAt(id, VimeoPath(url), {'/'})
    ensures !Contains(url, "vimeo.com/") ==> id == ""
    ensures forall i :: 0 <= i < |id| ==> id[i] != '/' && id[i] != '?' && id[i] != '#'
  {
    if Contains(url, "vimeo.com/") then
      var id := CutAtAny(VimeoPath(url), {'/'});
      assert forall i :: 0 <= i < |id| ==> id[i] == VimeoPath(url)[i];
      id
    else ""
  }

  function VimeoHash(url: string): string {
    if Contains(url, "vimeo.com/") && Contains(VimeoPath(url), "/")
    then SecondPiece(VimeoPath(url), "/") else ""
  }

  const VIMEO_OPTIONS: string := "title=0&byline=0&portrait=0&dnt=1"

  /** What follows the id in a Vimeo player address: the hash parameter when
      there is a hash, the fixed display options after `&` (after `?` when
      they open the query), and the API switches, with autoplay when the
      player is interactive. */
  function VimeoQuery(hash: string, interactive: bool): (q: string)
    ensures var lead := if hash != "" then "?h=" + hash + "&" else "?";
            |q| > |lead| && q[..|lead|] == lead
            && q[|lead|..] == VIMEO_OPTIONS + (if interactive then "&autoplay=1&api=1" else "&api=1")
    ensures |q| >= 3 && q[0] == '?'
    ensures hash != "" <==> q[..3] == "?h="
  {
    var hashParam := if hash != "" then "?h=" + hash else "";
    var sep := if hashParam != "" then "&" else "?";
    var tail := VIMEO_OPTIONS + (if interactive then "&autoplay=1&api=1" else "&api=1");
    var q := hashParam + sep + tail;
    assert hashParam + sep == if hash != "" then "?h=" + hash + "&" else "?";
    assert hash == "" ==> q[1] == 't';
    assert hash != "" ==> q[..3] == hashParam[..3];
    q
  }

  function VimeoEmbed(id: string, hash: string, interactive: bool): string {
    VIMEO_PLAYER + id + VimeoQuery(hash, interactive)
  }

  /** The link names YouTube. */
  predicate IsYouTubeLink(url: string) {
    Contains(url, "youtube.com") || Contains(url, "youtu.be")
  }

  /** `parseVideoInfo(url, isInteractive)`. */
  function ParseVideoInfo(url: string, interactive: bool): (r: VideoInfo)
    ensures url == "" <==> r == NoVideo
    ensures r.YouTube? <==> url != "" && IsYouTubeLink(url)
    ensures r.Vimeo? <==> url != "" && !IsYouTubeLink(url) && Contains(url, "vimeo.com")
                          && (Contains(url, "player.vimeo.com/video/") || VimeoId(url) != "")
    ensures r.Frame? <==> url != "" && !IsYouTubeLink(url)
                          && !(Contains(url, "vimeo.com")
                               && (Contains(url, "player.vimeo.com/video/") || VimeoId(url) != ""))
    ensures r.Frame? ==> r.embed == url
    ensures r.Vimeo? && Contains(url, "player.vimeo.com/video/") ==> r.embed == url
  {
    if url == "" then NoVideo
    else if IsYouTubeLink(url) then
      var id := YouTubeId(url);
      YouTube(YouTubeEmbed(id, interactive))
    else if Contains(url, "vimeo.com") && Contains(url, "player.vimeo.com/video/") then Vimeo(url)
    else if Contains(url, "vimeo.com") && VimeoId(url) != "" then
      Vimeo(VimeoEmbed(VimeoId(url), VimeoHash(url), interactive))
    else Frame(url)
  }

  /** The YouTube embed address carries exactly the parsed id, up to the
      first `?`, `#` or `&`. */
  lemma YouTubeEmbedCarriesId(url: string, interactive: bool)
    requires ParseVideoInfo(url, interactive).YouTube?
    ensures var e := ParseVideoInfo(url, interactive).embed;
            YOUTUBE_EMBED <= e && CutAtAny(e[|YOUTUBE_EMBED|..], YouTubeStops()) == YouTubeId(url)
  {
    YouTubeEmbedReadsBack(YouTubeId(url), interactive);
  }

  /** Cutting the Vimeo player address after its fixed prefix gives the id back,
      and the hash parameter follows iff there is a hash. */
  lemma VimeoEmbedReadsBack(id: string, hash: string, interactive: bool)
    requires forall i :: 0 <= i < |id| ==> id[i] != '?'
    ensures var e := VimeoEmbed(id, hash, interactive);
            VIMEO_PLAYER <= e && CutAtAny(e[|VIMEO_PLAYER|..], {'?'}) == id
            && |e| >= |VIMEO_PLAYER| + |id| + 3
            && (hash != "" <==> e[|VIMEO_PLAYER| + |id|..][..3] == "?h=")
  {
    var e := VimeoEmbed(id, hash, interactive);
    var q := VimeoQuery(hash, interactive);
    assert e == VIMEO_PLAYER + (id + q);
    assert e[|VIMEO_PLAYER|..] == id + q;
    CutAtAnyOfJoin(id, q, {'?'});
    assert e[|VIMEO_PLAYER| + |id|..] == q;
  }

  /** A Vimeo page address becomes a player address that carries exactly the
      video id up to the first `?`, and a private hash iff the page had one. */
  lemma VimeoEmbedCarriesId(url: string, interactive: bool)
    requires !Contains(url, "player.vimeo.com/video/")
    requires ParseVideoInfo(url, interactive).Vimeo?
    ensures var e := ParseVideoInfo(url, interactive).embed;
            VIMEO_PLAYER <= e && VimeoId(url) != ""
            && CutAtAny(e[|VIMEO_PLAYER|..], {'?'}) == VimeoId(url)
            && |e| >= |VIMEO_PLAYER| + |VimeoId(url)| + 3
            && (VimeoHash(url) != "" <==> e[|VIMEO_PLAYER| + |VimeoId(url)|..][..3] == "?h=")
  {
    VimeoEmbedReadsBack(VimeoId(url), VimeoHash(url), interactive);
  }
}
