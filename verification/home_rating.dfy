/** Rating submission on the home page (`handleRate` in HomePage.jsx): an
    optimistic update over the rating map, a single "saving" marker, and
    the per-store star widgets that feed it. Each click that reaches the
    server becomes an outstanding request; the server's answers arrive as
    separate events, in any order. */
module HomeRating {

  import opened Common
  import Stars

  const LoginPrompt := "Please login to rate stores!"
  const RateFailedFallback := "Failed to submit rating. Please try again."

  /** An outstanding POST of a rating, with the value captured for rollback. */
  datatype Request = Request(storeId: StoreId, userId: UserId, rating: int, previous: int)

  /** `userRatings`, `savingStoreId`, and the requests not yet answered. */
  datatype RateState = RateState(ratings: Ratings, saving: Option<StoreId>, pending: seq<Request>)

  /** The server's answer to one request; a rejection may carry an error text. */
  datatype Response = Ack | Rejected(serverError: Option<string>)

  /** A new state and the alert shown to the user, if any. */
  datatype Outcome = Outcome(state: RateState, alert: Option<string>)

  /** The page as first rendered: no ratings, nothing saving. */
  const Initial := RateState(map[], None, [])

  /** `handleRate(storeId, rating)` up to the point where it awaits the server. */
  function HandleRate(s: RateState, user: Option<User>, id: StoreId, rating: int): (o: Outcome)
    // logged out: an alert, and no change and no request
    ensures user.None? ==> o.state == s && o.alert == Some(LoginPrompt)
    // logged in: marker set, value applied at once, one request issued
    ensures user.Some? ==>
      && o.alert.None?
      && o.state.saving == Some(id)
      && id in o.state.ratings && o.state.ratings[id] == rating
      && AgreeExcept(s.ratings, o.state.ratings, id)
      && |o.state.pending| == |s.pending| + 1
      && o.state.pending[..|s.pending|] == s.pending
      && o.state.pending[|s.pending|] == Request(id, user.value.id, rating, Displayed(s.ratings, id))
  {
    match user
    case None => Outcome(s, Some(LoginPrompt))
    case Some(u) =>
      var previous := Displayed(s.ratings, id);
      Outcome(RateState(s.ratings[id := rating], Some(id), s.pending + [Request(id, u.id, rating, previous)]), None)
  }

  /** `err.response?.data?.error || fallback`: the server's text unless it
      is missing or empty. */
  function FailureMessage(serverError: Option<string>): (m: string)
    ensures m != ""
    ensures serverError.Some? && serverError.value != "" ==> m == serverError.value
    ensures serverError.None? || serverError.value == "" ==> m == RateFailedFallback
  {
    if serverError.Some? && serverError.value != "" then serverError.value else RateFailedFallback
  }

  /** The `catch`/`finally` of `handleRate` when request `k` is answered. */
  function Settle(s: RateState, k: nat, resp: Response): (o: Outcome)
    requires k < |s.pending|
    // the marker is cleared whatever the outcome and whichever store it names
    ensures o.state.saving.None?
    ensures o.state.pending == Remove(s.pending, k)
    // success: the optimistic value stands
    ensures resp.Ack? ==> o.state.ratings == s.ratings && o.alert.None?
    // failure: the captured value is written back, nothing else changes
    ensures resp.Rejected? ==>
      && s.pending[k].storeId in o.state.ratings
      && o.state.ratings[s.pending[k].storeId] == s.pending[k].previous
      && AgreeExcept(s.ratings, o.state.ratings, s.pending[k].storeId)
      && o.alert == Some(FailureMessage(resp.serverError))
  {
    var p := s.pending[k];
    var rest := Remove(s.pending, k);
    match resp
    case Ack => Outcome(RateState(s.ratings, None, rest), None)
    case Rejected(e) =>
      Outcome(RateState(s.ratings[p.storeId := p.previous], None, rest), Some(FailureMessage(e)))
  }

  /** What a store's row shows under its average: a signed-in user gets the
      star widget (`initialRating = userRatings[id] || 0`, `disabled = !user`,
      `isSaving = savingStoreId === id`) and its caption; a visitor gets only
      the "Login to Rate" button, whatever ratings and marker survive. */
  datatype RowView = RatingRow(widget: Stars.Widget, caption: Stars.Caption) | LoginToRate

  function RowFor(s: RateState, user: Option<User>, id: StoreId, hover: int): (r: RowView)
    ensures r.LoginToRate? <==> user.None?
    ensures r.RatingRow? ==>
      && r.widget.hover == hover
      && r.widget.current == Displayed(s.ratings, id)
      && !r.widget.disabled
      && (r.widget.saving <==> s.saving == Some(id))
    // the caption: "Saving..." exactly while the marker names this store,
    // else "Rated: n stars" for a positive rating, else the prompt
    ensures r.RatingRow? ==>
      && (r.caption == Stars.SavingCaption <==> s.saving == Some(id))
      && (r.caption.RatedCaption? <==> s.saving != Some(id) && Displayed(s.ratings, id) > 0)
      && (r.caption.RatedCaption? ==> r.caption.stars == Displayed(s.ratings, id))
  {
    match user
    case None => LoginToRate
    case Some(_) =>
      var saving := s.saving == Some(id);
      RatingRow(Stars.Widget(hover, Displayed(s.ratings, id), false, saving),
                Stars.HomeCaption(Displayed(s.ratings, id), saving))
  }

  /** A click on star `star` of store `id`'s row (the pointer is over that
      star, so it is also the hover value). A visitor has no stars to click. */
  function ClickStar(s: RateState, user: Option<User>, id: StoreId, star: int): (o: Outcome)
    // blocked: no user, or this very store is saving; nothing happens
    ensures user.None? || s.saving == Some(id) ==> o == Outcome(s, None)
    // otherwise the click is submitted, even while another store saves
    ensures user.Some? && s.saving != Some(id) ==> o == HandleRate(s, user, id, star)
    // the login alert of `handleRate` is never reached from the page
    ensures o.alert.None?
  {
    match RowFor(s, user, id, star)
    case LoginToRate => Outcome(s, None)
    case RatingRow(w, _) =>
      match Stars.Click(w, star)
      case None => Outcome(s, None)
      case Some(r) => HandleRate(s, user, id, r)
  }

  /** A click on a row that is not saving submits exactly one request, for
      this store and star, and leaves every other store's rating alone. */
  lemma ClickSubmits(s: RateState, u: User, id: StoreId, star: int)
    requires s.saving != Some(id)
    ensures
      var t := ClickStar(s, Some(u), id, star).state;
      && t.saving == Some(id)
      && t.ratings == s.ratings[id := star]
      && t.pending == s.pending + [Request(id, u.id, star, Displayed(s.ratings, id))]
  {
  }

  /** A click immediately followed by a rejection restores every displayed
      rating; an absent entry comes back as an explicit 0, not a deletion. */
  lemma ClickThenRejectRestores(s: RateState, u: User, id: StoreId, rating: int, e: Option<string>)
    ensures
      var s1 := HandleRate(s, Some(u), id, rating).state;
      var o := Settle(s1, |s.pending|, Rejected(e));
      && o.state.pending == s.pending
      && o.state.saving.None?
      && o.state.ratings == (if id in s.ratings then s.ratings else s.ratings[id := 0])
      && (forall k :: Displayed(o.state.ratings, k) == Displayed(s.ratings, k))
      && o.alert.Some?
  {
    var s1 := HandleRate(s, Some(u), id, rating).state;
    var o := Settle(s1, |s.pending|, Rejected(e));
    assert s1.pending[|s.pending|].previous == Displayed(s.ratings, id);
    assert o.state.pending == s.pending by {
      assert s1.pending[..|s.pending|] == s.pending;
    }
  }

  /** A click immediately followed by an acknowledgement keeps the new value
      and clears the marker. */
  lemma ClickThenAckKeeps(s: RateState, u: User, id: StoreId, rating: int)
    ensures
      var s1 := HandleRate(s, Some(u), id, rating).state;
      var o := Settle(s1, |s.pending|, Ack);
      && o.state.pending == s.pending
      && o.state.saving.None?
      && o.state.ratings == s.ratings[id := rating]
      && o.alert.None?
  {
    var s1 := HandleRate(s, Some(u), id, rating).state;
    assert s1.pending[..|s.pending|] == s.pending;
  }

  /** The events of the rating controller. */
  datatype Event = StarClicked(id: StoreId, star: int) | Settled(k: nat, resp: Response)

  /** An event can occur: stars are numbered 1..5, and only an outstanding
      request can be answered. */
  predicate Enabled(s: RateState, e: Event)
  {
    match e
    case StarClicked(_, star) => 1 <= star <= Stars.StarCount
    case Settled(k, _) => k < |s.pending|
  }

  function Step(s: RateState, user: Option<User>, e: Event): RateState
    requires Enabled(s, e)
  {
    match e
    case StarClicked(id, star) => ClickStar(s, user, id, star).state
    case Settled(k, resp) => Settle(s, k, resp).state
  }

  /** Every event of the trace is enabled when it happens. */
  predicate ValidRun(s: RateState, user: Option<User>, es: seq<Event>)
    decreases |es|
  {
    es == [] || (Enabled(s, es[0]) && ValidRun(Step(s, user, es[0]), user, es[1..]))
  }

  function Run(s: RateState, user: Option<User>, es: seq<Event>): RateState
    requires ValidRun(s, user, es)
    decreases |es|
  {
    if es == [] then s else Run(Step(s, user, es[0]), user, es[1..])
  }

  /** What stays true of the controller: every displayed rating is a star
      count or the 0 of a rollback, every outstanding request carries such
      values, and a set marker names the store of the latest request. */
  ghost predicate Inv(s: RateState)
  {
    && RatingsInRange(s.ratings)
    && (forall i :: 0 <= i < |s.pending| ==>
          0 <= s.pending[i].previous <= 5 && 1 <= s.pending[i].rating <= 5)
    && (s.saving.Some? ==> |s.pending| > 0 && s.pending[|s.pending| - 1].storeId == s.saving.value)
  }

  lemma InitialInv()
    ensures Inv(Initial)
  {
  }

  lemma StepPreservesInv(s: RateState, user: Option<User>, e: Event)
    requires Inv(s)
    requires Enabled(s, e)
    ensures Inv(Step(s, user, e))
  {
    match e
    case StarClicked(_, _) =>
    case Settled(k, resp) =>
      var o := Settle(s, k, resp);
      forall i | 0 <= i < |o.state.pending|
        ensures 0 <= o.state.pending[i].previous <= 5 && 1 <= o.state.pending[i].rating <= 5
      {
        if i < k { assert o.state.pending[i] == s.pending[i]; }
        else { assert o.state.pending[i] == s.pending[i + 1]; }
      }
  }

  /** The invariant holds after any run of enabled events. */
  lemma {:induction false} RunPreservesInv(s: RateState, user: Option<User>, es: seq<Event>)
    requires Inv(s)
    requires ValidRun(s, user, es)
    ensures Inv(Run(s, user, es))
    decreases |es|
  {
    if es != [] {
      StepPreservesInv(s, user, es[0]);
      RunPreservesInv(Step(s, user, es[0]), user, es[1..]);
    }
  }

  /** The marker is global: the answer for store `a` clears it although the
      request for store `b`, clicked later, is still outstanding, and `b`'s
      stars then accept a second click that issues a second request. */
  lemma MarkerClearedWhileOtherPending(u: User, a: StoreId, b: StoreId, ra: int, rb: int, resp: Response)
    requires a != b
    requires 1 <= ra <= 5 && 1 <= rb <= 5
    ensures
      var s1 := ClickStar(Initial, Some(u), a, ra).state;
      var s2 := ClickStar(s1, Some(u), b, rb).state;
      var s3 := Settle(s2, 0, resp).state;
      var s4 := ClickStar(s3, Some(u), b, rb).state;
      && s2.saving == Some(b)
      && s3.saving.None?
      && |s3.pending| == 1 && s3.pending[0].storeId == b
      && |s4.pending| == 2 && s4.pending[0].storeId == b && s4.pending[1].storeId == b
  {
  }

  /** Two outstanding requests for one store: the second captured the first
      one's optimistic value for its rollback. When both are rejected, oldest
      first, the display ends on that value although the server refused it:
      both requests for `a` fail, yet `a` shows 3. */
  lemma RejectedValueReappears(u: User, a: StoreId, b: StoreId)
    requires a != b
    ensures
      var s1 := ClickStar(Initial, Some(u), a, 3).state;
      var s2 := ClickStar(s1, Some(u), b, 4).state;
      var s3 := ClickStar(s2, Some(u), a, 5).state;
      var s4 := Settle(s3, 0, Rejected(None)).state;
      var s5 := Settle(s4, 1, Rejected(None)).state;
      && s3.pending[0] == Request(a, u.id, 3, 0)
      && s3.pending[2] == Request(a, u.id, 5, 3)
      && s4.ratings[a] == 0
      && s5.ratings[a] == 3
      && Displayed(s5.ratings, a) == 3
  {
  }
}
