/**
 * The performer's page: `submitSong` with its validation order and next
 * `order` value, the effect that runs on every queue or current-song change
 * (form visibility and the position notification), and the choice of what
 * `renderQueueStatus` shows for a queue position. This page orders songs by
 * an integer `order` column, unlike the store's `created_at`.
 */
module PartyView {
  import opened Wrappers
  import opened JsText
  import opened SongQueue
  import VideoId
  import PartyStore

  const NameRequired := "Please enter your name"
  const PartyIdMissing := "Party ID is missing"
  const InvalidUrl := "Invalid YouTube URL"
  const SubmitFailed := "Error submitting song. Please try again."
  const Submitted := "Song added successfully! Get ready to shine! \U{2728}"

  const UpNextAlert := "You're up next!"
  const UpNextHeading := "You're Up Next! \U{1F389}"
  const WarmUpHint := "Time to warm up those vocal cords! \U{1F3B5}"
  const UntilYourTurn := " until your performance"
  const PracticeHint := "Take your time to practice! \U{1F3BC}"

  /** `partyId` is truthy: present and not the empty string. */
  predicate HasPartyId(partyId: Option<string>)
  {
    partyId.Some? && partyId.value != ""
  }

  /** `currentSong?.submitted_by === name` */
  predicate IsCurrentSinger(currentSong: Option<Song>, name: string)
  {
    currentSong.Some? && currentSong.value.submittedBy == name
  }

  // ---------------------------------------------------------------------------
  // submitSong

  /** The row `submitSong` asks the table to insert. */
  datatype SongInsert = SongInsert(partyId: string, title: string, youtubeUrl: string, submittedBy: string, order: int)

  /** The outcome of the three checks `submitSong` makes before it touches the table. */
  datatype Verdict = NameBlank | NoPartyId | NoVideoId | Accept(videoId: string)
  {
    /** The error the page shows for a failed check; each check has its own message. */
    function Message(): (m: string)
      requires !Accept?
      ensures m == NameRequired <==> NameBlank?
      ensures m == PartyIdMissing <==> NoPartyId?
      ensures m == InvalidUrl <==> NoVideoId?
    {
      assert NameRequired[1] != PartyIdMissing[1] && NameRequired[1] != InvalidUrl[1] && PartyIdMissing[1] != InvalidUrl[1];
      match this
      case NameBlank => NameRequired
      case NoPartyId => PartyIdMissing
      case NoVideoId => InvalidUrl
    }
  }

  /**
   * The checks in the page's order: a blank name, then a missing party id,
   * then a URL without a video id. The first that fails decides the outcome.
   */
  function CheckSubmission(name: string, partyId: Option<string>, url: string): (v: Verdict)
    ensures v.NameBlank? <==> Trim(name) == []
    ensures v.NameBlank? <==> AllSpace(name)
    ensures v.NoPartyId? <==> !AllSpace(name) && !HasPartyId(partyId)
    ensures v.NoVideoId? <==> !AllSpace(name) && HasPartyId(partyId) && VideoId.ExtractVideoId(url).None?
    ensures v.Accept? <==> !AllSpace(name) && HasPartyId(partyId) && VideoId.ExtractVideoId(url).Some?
    ensures v.Accept? ==> VideoId.ExtractVideoId(url) == Some(v.videoId) && VideoId.IsVideoId(v.videoId)
  {
    TrimEmptyIff(name);
    if Trim(name) == [] then NameBlank
    else if !HasPartyId(partyId) then NoPartyId
    else
      match VideoId.ExtractVideoId(url)
      case None => NoVideoId
      case Some(id) => Accept(id)
  }

  /** The largest `order` of the party: the one row of `order('order', { ascending: false }).limit(1)`. */
  function MaxOrder(orders: seq<int>): (m: int)
    requires |orders| > 0
    ensures m in orders
    ensures forall k :: 0 <= k < |orders| ==> orders[k] <= m
  {
    if |orders| == 1 then orders[0]
    else
      var t := MaxOrder(orders[1..]);
      if orders[0] >= t then orders[0] else t
  }

  /** The `order` of a new submission: 0 in an empty party, one past the largest existing order otherwise. */
  function NextOrder(orders: seq<int>): (r: int)
    ensures |orders| == 0 ==> r == 0
    ensures forall k :: 0 <= k < |orders| ==> orders[k] < r
    ensures |orders| > 0 ==> r - 1 in orders
  {
    if |orders| == 0 then 0 else MaxOrder(orders) + 1
  }

  // ---------------------------------------------------------------------------
  // The position notification (the effect on queue / currentSong changes)

  /** The notification text for a position in [0, 2]. */
  function AlertText(position: nat): (t: string)
    ensures t == UpNextAlert <==> position == 0
  {
    assert position > 0 ==> var t := "You're " + DecimalString(position + 1) + " songs away from performing!";
      t[|t| - 1] == '!' && t[|t| - 2] == 'g' && UpNextAlert[|UpNextAlert| - 2] == 't';
    if position == 0 then UpNextAlert
    else "You're " + DecimalString(position + 1) + " songs away from performing!"
  }

  /**
   * The notification the effect raises for a queue position (-1 when the user
   * has no song), given whether the user is the current singer.
   */
  function PositionAlert(position: int, isCurrentSinger: bool): (r: Option<string>)
    requires position >= -1
    ensures r.Some? <==> 0 <= position <= 2 && !isCurrentSinger
    ensures r.Some? ==> r.value == AlertText(position)
  {
    if position == -1 then None
    else if isCurrentSinger then None
    else if position <= 2 && position != -1 then Some(AlertText(position))
    else None
  }

  /** The alert counts the songs until the user's turn, the user's own included. */
  lemma AlertCountsSongs(position: int)
    requires 1 <= position <= 2
    ensures var t := PositionAlert(position, false).value;
      var digits := DecimalString(position + 1);
      t == "You're " + digits + " songs away from performing!" && ParseDecimal(digits) == position + 1
  {
    DecimalRoundTrip(position + 1);
  }

  // ---------------------------------------------------------------------------
  // renderQueueStatus

  datatype QueueStatus =
    | NowPerforming(title: string)                       // "It's Your Time to Shine!" view
    | NoStatus                                           // `return null`
    | Waiting(heading: string, barWidth: int, hint: string)

  /**
   * The page's `n === 1 ? 'song' : 'songs'`. Given the count shown it agrees
   * with that count; the page gives it the position instead.
   */
  function SongNoun(count: nat): (w: string)
    ensures w == "song" <==> count == 1
  {
    if count == 1 then "song" else "songs"
  }

  /** The heading as the page writes it: the noun is chosen by the position, not by the count shown. */
  function HeadingAsWritten(position: nat): (h: string)
    ensures h == UpNextHeading <==> position == 0
  {
    assert position > 0 ==> var h := DecimalString(position + 1) + " " + SongNoun(position) + UntilYourTurn;
      h[|h| - 1] == 'e';
    if position == 0 then UpNextHeading
    else DecimalString(position + 1) + " " + SongNoun(position) + UntilYourTurn
  }

  /**
   * Past the head the page shows the number of songs until the user's turn,
   * the user's own included, with the singular noun exactly at position 1.
   */
  lemma HeadingAsWrittenShows(position: nat)
    requires position >= 1
    ensures var digits := DecimalString(position + 1);
      HeadingAsWritten(position) == digits + " " + SongNoun(position) + UntilYourTurn &&
      ParseDecimal(digits) == position + 1
  {
    DecimalRoundTrip(position + 1);
  }

  /** At position 1 the page shows the count 2 with the singular noun. */
  lemma HeadingAsWrittenDisagrees()
    ensures HeadingAsWritten(1) == "2" + " " + "song" + UntilYourTurn
    ensures SongNoun(2) != "song"
  {
    assert Digit(2) == '2';
    assert DecimalString(2) == "2";
  }

  /** The heading with the noun agreeing with the count shown. */
  function Heading(position: nat): (h: string)
    ensures h == UpNextHeading <==> position == 0
  {
    assert position > 0 ==> var h := DecimalString(position + 1) + " " + SongNoun(position + 1) + UntilYourTurn;
      h[|h| - 1] == 'e';
    if position == 0 then UpNextHeading
    else DecimalString(position + 1) + " " + SongNoun(position + 1) + UntilYourTurn
  }

  /** Past the head the heading shows the count of songs until the user's turn and a noun that agrees with it. */
  lemma HeadingCountsSongs(position: nat)
    requires position >= 1
    ensures var digits := DecimalString(position + 1);
      Heading(position) == digits + " " + "songs" + UntilYourTurn && ParseDecimal(digits) == position + 1
  {
    DecimalRoundTrip(position + 1);
    assert SongNoun(position + 1) == "songs";
  }

  /** The corrected heading differs from the page's exactly at position 1. */
  lemma HeadingCorrectionOnlyAtOne(position: nat)
    ensures Heading(position) == HeadingAsWritten(position) <==> position != 1
  {
    if position == 1 {
      var digits := DecimalString(2);
      // the two headings differ in length: "songs" against "song"
      assert |Heading(1)| == |digits| + 1 + 5 + |UntilYourTurn|;
      assert |HeadingAsWritten(1)| == |digits| + 1 + 4 + |UntilYourTurn|;
    } else if position > 1 {
      assert SongNoun(position + 1) == "songs";
    }
  }

  /** The progress bar's width in percent: full at the head, 25 points less per song ahead. */
  function BarWidth(position: nat): (w: int)
    ensures w <= 100 && w % 25 == 0
    ensures w == 100 <==> position == 0
  {
    100 - position * 25
  }

  lemma BarWidthShrinks(p: nat, p': nat)
    ensures BarWidth(0) == 100 && BarWidth(4) == 0
    ensures p < p' ==> BarWidth(p') < BarWidth(p)
    ensures BarWidth(p) <= 100
  {
  }

  /**
   * What the status panel shows for a queue position (-1 when the user has
   * no song), with the heading as the page writes it.
   */
  function RenderQueueStatus(position: int, currentSong: Option<Song>, name: string): (v: QueueStatus)
    requires position >= -1
    ensures IsCurrentSinger(currentSong, name) ==> v == NowPerforming(currentSong.value.title)
    ensures !IsCurrentSinger(currentSong, name) ==> (v.NoStatus? <==> position == -1)
    ensures !IsCurrentSinger(currentSong, name) && position >= 0 ==> v.Waiting?
    ensures v.Waiting? ==> v.heading == HeadingAsWritten(position) && v.barWidth == BarWidth(position)
    ensures v.Waiting? ==> (v.heading == UpNextHeading <==> position == 0)
    ensures v.Waiting? ==> v.hint == (if position <= 2 then WarmUpHint else PracticeHint)
  {
    if IsCurrentSinger(currentSong, name) then NowPerforming(currentSong.value.title)
    else if position == -1 then NoStatus
    else Waiting(HeadingAsWritten(position), BarWidth(position), if position <= 2 then WarmUpHint else PracticeHint)
  }

  /**
   * The notification and the status panel agree: outside the current-singer
   * view, an alert is raised exactly when the panel shows the warm-up hint,
   * and it is the "up next" alert exactly when the panel shows the "up next" heading.
   */
  lemma AlertAgreesWithStatus(position: int, currentSong: Option<Song>, name: string)
    requires position >= -1
    ensures var singer := IsCurrentSinger(currentSong, name);
      var alert := PositionAlert(position, singer);
      var status := RenderQueueStatus(position, currentSong, name);
      !singer ==>
        (alert.Some? <==> status.Waiting? && status.hint == WarmUpHint) &&
        (alert == Some(UpNextAlert) <==> status.Waiting? && status.heading == UpNextHeading)
  {
  }

  // ---------------------------------------------------------------------------

  /** The page's own state, beside the store it reads and writes. */
  class PartyView {
    var name: string
    var youtubeUrl: string
    var error: string
    var success: string
    var showSubmission: bool
    const store: PartyStore.PartyStore

    constructor (store: PartyStore.PartyStore)
      ensures this.store == store
      ensures name == "" && youtubeUrl == "" && error == "" && success == "" && showSubmission
    {
      this.store := store;
      name, youtubeUrl, error, success := "", "", "", "";
      showSubmission := true;
    }

    /**
     * Validates, then asks the table to insert the song. `title` is what the
     * title lookup returned, `existingOrders` the party's `order` values
     * (None when that read failed) and `inserted` the row the insert returned
     * (None when it reported an error). Returns the insert requested, if any.
     */
    method SubmitSong(title: string, existingOrders: Option<seq<int>>, inserted: Option<Song>)
      returns (request: Option<SongInsert>)
      modifies this, store
      ensures name == old(name) && showSubmission == old(showSubmission)
      ensures store.partyId == old(store.partyId) && store.passcode == old(store.passcode)
      ensures var verdict := CheckSubmission(old(name), old(store.partyId), old(youtubeUrl));
        if verdict.Accept? then
          request == Some(SongInsert(old(store.partyId).value, title, verdict.videoId, old(name),
                                     NextOrder(existingOrders.GetOr([]))))
        else
          request == None && error == verdict.Message() &&
          youtubeUrl == old(youtubeUrl) && success == old(success) && store.queue == old(store.queue)
      ensures request.Some? && inserted.None? ==>
        error == SubmitFailed && youtubeUrl == old(youtubeUrl) && success == old(success) &&
        store.queue == old(store.queue)
      ensures request.Some? && inserted.Some? ==>
        store.queue == old(store.queue) + [inserted.value] &&
        youtubeUrl == "" && error == "" && success == Submitted
    {
      var verdict := CheckSubmission(name, store.partyId, youtubeUrl);
      if !verdict.Accept? {
        error := verdict.Message();
        return None;
      }
      var nextOrder := NextOrder(existingOrders.GetOr([]));
      request := Some(SongInsert(store.partyId.value, title, verdict.videoId, name, nextOrder));
      FinishInsert(inserted);
    }

    /** After the insert: its error becomes the page's message, or its row joins the queue and the URL field clears. */
    method FinishInsert(inserted: Option<Song>)
      modifies this, store
      ensures name == old(name) && showSubmission == old(showSubmission)
      ensures store.partyId == old(store.partyId) && store.passcode == old(store.passcode)
      ensures inserted.None? ==>
        error == SubmitFailed && youtubeUrl == old(youtubeUrl) && success == old(success) &&
        store.queue == old(store.queue)
      ensures inserted.Some? ==>
        store.queue == old(store.queue) + [inserted.value] &&
        youtubeUrl == "" && error == "" && success == Submitted
    {
      if inserted.None? {
        error := SubmitFailed;
        return;
      }
      store.AddSong(inserted.value);
      youtubeUrl := "";
      error := "";
      success := Submitted;
    }

    /**
     * The effect run on every change of the queue or the current song: shows
     * the form exactly when the user has no song queued, and raises the
     * position alert when notifications are granted. Nothing remembers the
     * previous position, so an unchanged position alerts again.
     */
    method OnQueueChange(currentSong: Option<Song>, notificationsGranted: bool) returns (alert: Option<string>)
      modifies this`showSubmission
      ensures name == "" ==> showSubmission == old(showSubmission) && alert == None
      ensures name != "" ==> showSubmission == (store.GetUserQueuePosition(name) == -1)
      ensures name != "" && notificationsGranted ==>
        alert == PositionAlert(store.GetUserQueuePosition(name), IsCurrentSinger(currentSong, name))
      ensures !notificationsGranted ==> alert == None
    {
      alert := None;
      if name != "" {
        var position := store.GetUserQueuePosition(name);
        if position == -1 {
          showSubmission := true;
        } else {
          showSubmission := false;
          if IsCurrentSinger(currentSong, name) {
            // the "You're up!" screen, no notification
          } else if position <= 2 && position != -1 {
            if notificationsGranted {
              alert := Some(AlertText(position));
            }
          }
        }
      }
    }

    /** What the page renders for the status panel. */
    function QueueStatus(currentSong: Option<Song>): (v: QueueStatus)
      reads this, store
      ensures IsCurrentSinger(currentSong, name) ==> v == NowPerforming(currentSong.value.title)
      ensures !IsCurrentSinger(currentSong, name) ==>
        (v.NoStatus? <==> forall k :: 0 <= k < |store.queue| ==> store.queue[k].submittedBy != name)
      ensures !IsCurrentSinger(currentSong, name) ==>
        (v.Waiting? <==> exists k :: 0 <= k < |store.queue| && store.queue[k].submittedBy == name)
      ensures v.Waiting? ==> var p := store.GetUserQueuePosition(name);
        0 <= p && v.heading == HeadingAsWritten(p) && v.barWidth == BarWidth(p) &&
        v.hint == (if p <= 2 then WarmUpHint else PracticeHint)
    {
      RenderQueueStatus(store.GetUserQueuePosition(name), currentSong, name)
    }
  }

  /** Two effect runs over the same queue raise the same alert twice: there is no repeat suppression. */
  method AlertRepeats(view: PartyView, currentSong: Option<Song>) returns (first: Option<string>, second: Option<string>)
    requires view.name != ""
    requires 0 <= view.store.GetUserQueuePosition(view.name) <= 2 && !IsCurrentSinger(currentSong, view.name)
    modifies view
    ensures first.Some? && second == first
  {
    first := view.OnQueueChange(currentSong, true);
    second := view.OnQueueChange(currentSong, true);
  }
}
