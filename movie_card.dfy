/**
 * One catalogue card: the poster fallback and the delete-confirmation state
 * machine over `isConfirmingDelete`, whose handlers launch the video, request
 * an edit, or ask the catalogue to delete the card's movie.
 */
module MovieCard {
  import opened Wrappers
  import opened Types

  /** The poster shown when a movie has no photo URL. */
  const PlaceholderPoster: string :=
    "https://images.unsplash.com/photo-1536440136628-849c177e76a1?w=400&h=600&fit=crop"

  /** The poster image: the photo URL, or the placeholder when that is empty; never empty. */
  function PosterSource(m: Movie): (src: string)
    ensures src != ""
    ensures m.photoUrl != "" ==> src == m.photoUrl
    ensures m.photoUrl == "" ==> src == PlaceholderPoster
  {
    if m.photoUrl != "" then m.photoUrl else PlaceholderPoster
  }

  /** The card's handlers. */
  datatype Event = Launch | Edit | DeleteTrigger | ConfirmDelete | CancelDelete

  /** What a handler emits: a link opened, an edit or a delete requested of the parent, or nothing. */
  datatype Effect = Opened(url: string) | EditRequested(movie: Movie) | Deleted(id: string) | Quiet

  /** One handler run from `confirming`: the next value of `isConfirmingDelete` and its effect. */
  function Step(confirming: bool, m: Movie, e: Event): (r: (bool, Effect))
    ensures r.1.Deleted? <==> e == ConfirmDelete
    ensures r.1.Deleted? ==> r.1.id == m.id
    ensures r.1.Opened? <==> e == Launch && !confirming
    ensures r.1.Opened? ==> r.1.url == m.youtubeUrl
    ensures r.0 <==> e == DeleteTrigger || (confirming && (e == Launch || e == Edit))
    ensures e == Edit ==> r.1 == EditRequested(m)
    ensures e == DeleteTrigger || e == CancelDelete ==> r.1 == Quiet
  {
    match e
    case Launch => (confirming, if confirming then Quiet else Opened(m.youtubeUrl))
    case Edit => (confirming, EditRequested(m))
    case DeleteTrigger => (true, Quiet)
    case ConfirmDelete => (false, Deleted(m.id))
    case CancelDelete => (false, Quiet)
  }

  /** The confirm and cancel buttons are rendered only while a confirmation is pending. */
  predicate Offered(confirming: bool, e: Event)
    ensures confirming ==> Offered(confirming, e)
    ensures !confirming ==> (Offered(confirming, e) <==> e == Launch || e == Edit || e == DeleteTrigger)
  {
    (e == ConfirmDelete || e == CancelDelete) ==> confirming
  }

  /** Running a sequence of handlers: the final state and the effects in order. */
  function Run(confirming: bool, m: Movie, events: seq<Event>): (bool, seq<Effect>)
    decreases |events|
  {
    if events == [] then (confirming, [])
    else
      var (next, effect) := Step(confirming, m, events[0]);
      var (last, effects) := Run(next, m, events[1..]);
      (last, [effect] + effects)
  }

  /** Every handler in the sequence is reachable from the screen at the moment it runs. */
  predicate OfferedRun(confirming: bool, m: Movie, events: seq<Event>)
    decreases |events|
  {
    events == [] ||
    (Offered(confirming, events[0]) && OfferedRun(Step(confirming, m, events[0]).0, m, events[1..]))
  }

  function CountTriggers(events: seq<Event>): nat {
    if events == [] then 0 else (if events[0] == DeleteTrigger then 1 else 0) + CountTriggers(events[1..])
  }

  function CountDeletes(effects: seq<Effect>): nat {
    if effects == [] then 0 else (if effects[0].Deleted? then 1 else 0) + CountDeletes(effects[1..])
  }

  /**
   * Along any sequence of handlers the screen offers, starting from a card
   * not confirming, each delete request is preceded by its own delete
   * trigger, names this card's movie, and no link opens while confirming:
   * the state before the `k`-th handler is the final state of the first `k`.
   */
  lemma {:induction false} DeletesNeedTriggers(confirming: bool, m: Movie, events: seq<Event>)
    requires OfferedRun(confirming, m, events)
    ensures CountDeletes(Run(confirming, m, events).1) + (if Run(confirming, m, events).0 then 1 else 0)
         <= CountTriggers(events) + (if confirming then 1 else 0)
    ensures |Run(confirming, m, events).1| == |events|
    ensures forall f :: f in Run(confirming, m, events).1 && f.Deleted? ==> f.id == m.id
    ensures forall k :: 0 <= k < |events| && Run(confirming, m, events).1[k].Opened? ==>
      !Run(confirming, m, events[..k]).0
    decreases |events|
  {
    if events != [] {
      var (next, effect) := Step(confirming, m, events[0]);
      DeletesNeedTriggers(next, m, events[1..]);
      var rest := Run(next, m, events[1..]).1;
      assert Run(confirming, m, events).1 == [effect] + rest;
      assert CountDeletes([effect] + rest) == (if effect.Deleted? then 1 else 0) + CountDeletes(rest);
      forall k | 0 < k < |events| ensures Run(confirming, m, events[..k]).0 == Run(next, m, events[1..][..k - 1]).0 {
        var pre := events[..k];
        assert pre != [] && pre[0] == events[0];
        assert pre[1..] == events[1..][..k - 1];
        assert Run(confirming, m, pre).0 == Run(Step(confirming, m, pre[0]).0, m, pre[1..]).0;
      }
      assert Run(confirming, m, events[..0]).0 == confirming by { assert events[..0] == []; }
    }
  }

  /** The card component's state. */
  class Card {
    const movie: Movie
    var isConfirmingDelete: bool

    constructor (movie: Movie)
      ensures this.movie == movie && !isConfirmingDelete
    {
      this.movie := movie;
      isConfirmingDelete := false;
    }

    /** Clicking or pressing Enter on the poster: the URL handed to the browser, none while confirming. */
    method LaunchVideo() returns (launched: Option<string>)
      ensures isConfirmingDelete ==> launched.None?
      ensures !isConfirmingDelete ==> launched == Some(movie.youtubeUrl)
      ensures Step(isConfirmingDelete, movie, Launch) == (isConfirmingDelete, if launched.Some? then Opened(launched.value) else Quiet)
    {
      if isConfirmingDelete {
        return None;
      }
      launched := Some(movie.youtubeUrl);
    }

    /** The edit button: the movie handed to the parent's edit handler. */
    method RequestEdit() returns (edited: Movie)
      ensures edited == movie
      ensures Step(isConfirmingDelete, movie, Edit) == (isConfirmingDelete, EditRequested(edited))
    {
      edited := movie;
    }

    /** The trash button: ask for confirmation, delete nothing yet. */
    method TriggerDelete()
      modifies this
      ensures isConfirmingDelete
      ensures Step(old(isConfirmingDelete), movie, DeleteTrigger) == (isConfirmingDelete, Quiet)
    {
      isConfirmingDelete := true;
    }

    /** The confirm button: the id handed to the parent's delete handler; the card returns to idle. */
    method ConfirmDelete() returns (deletedId: string)
      modifies this
      ensures deletedId == movie.id && !isConfirmingDelete
      ensures Step(old(isConfirmingDelete), movie, Event.ConfirmDelete) == (isConfirmingDelete, Deleted(deletedId))
    {
      deletedId := movie.id;
      isConfirmingDelete := false;
    }

    /** The cancel button: back to idle, nothing deleted. */
    method CancelDelete()
      modifies this
      ensures !isConfirmingDelete
      ensures Step(old(isConfirmingDelete), movie, Event.CancelDelete) == (isConfirmingDelete, Quiet)
    {
      isConfirmingDelete := false;
    }
  }
}
