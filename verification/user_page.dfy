/** The signed-in user's page (UserPage.jsx): a fixed store list loaded on
    mount, a name-or-address filter, rating changes applied at once with no
    request and so no rollback, and the password form. */
module UserPage {

  import opened Common
  import Text
  import Seqs
  import Stars

  const LoginPrompt := "Please log in to submit a rating."
  const FillBothPrompt := "Please fill in both fields."
  const PasswordUpdated := "Password updated successfully!"

  datatype Tab = StoresTab | PasswordTab

  datatype PasswordForm = PasswordForm(oldPassword: string, newPassword: string)

  const EmptyForm := PasswordForm("", "")

  datatype PageState = PageState(
    tab: Tab, stores: seq<Store>, ratings: Ratings, filter: string, form: PasswordForm)

  /** A new state and the alert shown, if any. */
  datatype Outcome = Outcome(state: PageState, alert: Option<string>)

  /** The first render, before the load effect runs. */
  const Initial := PageState(StoresTab, [], map[], "", EmptyForm)

  /** The page's built-in store list (average ratings not modelled). */
  const DummyStores := [
    Store(1, "Sunrise Cafe", "123 Main St"),
    Store(2, "Book Nook", "456 Oak Ave"),
    Store(3, "Green Grocer", "789 Pine Ln"),
    Store(4, "Hardware Hub", "101 Maple Rd")
  ]

  const DummyRatings: Ratings := map[1 := 5, 3 := 4]

  /** The load effect (on mount and on every change of user): the built-in
      stores and past ratings replace whatever the page held. */
  function Load(s: PageState): (t: PageState)
    ensures t.stores == DummyStores
    ensures t.ratings.Keys == {1, 3} && t.ratings[1] == 5 && t.ratings[3] == 4
    ensures t.tab == s.tab && t.filter == s.filter && t.form == s.form
  {
    s.(stores := DummyStores, ratings := DummyRatings)
  }

  /** Loading again gives the same page: the effect is idempotent, and a
      reload discards any rating changed since. */
  lemma LoadIdempotent(s: PageState, id: StoreId, r: int)
    ensures Load(Load(s)) == Load(s)
    ensures Load(s.(ratings := s.ratings[id := r])) == Load(s)
  {
  }

  /** After loading, stores 2 and 4 show 0 stars and stores 1 and 3 their
      past ratings. */
  lemma LoadedDisplay(s: PageState)
    ensures Displayed(Load(s).ratings, 1) == 5 && Displayed(Load(s).ratings, 3) == 4
    ensures Displayed(Load(s).ratings, 2) == 0 && Displayed(Load(s).ratings, 4) == 0
  {
  }

  /** The store filter: name or address contains the filter, ignoring case. */
  predicate StoreMatches(st: Store, filter: string)
  {
    Text.MatchesIgnoringCase(st.name, filter) || Text.MatchesIgnoringCase(st.address, filter)
  }

  /** `filteredStores`. */
  function FilterStores(stores: seq<Store>, filter: string): (r: seq<Store>)
    ensures forall st :: st in r <==> (st in stores &&
      (Text.Occurs(Text.Lower(filter), Text.Lower(st.name)) ||
       Text.Occurs(Text.Lower(filter), Text.Lower(st.address))))
  {
    Seqs.Filter(stores, st => StoreMatches(st, filter))
  }

  /** The filter keeps the input order. */
  lemma FilterStoresKeepsOrder(stores: seq<Store>, filter: string)
    ensures Seqs.SubseqOf(FilterStores(stores, filter), stores)
  {
    Seqs.FilterIsSubseq(stores, st => StoreMatches(st, filter));
  }

  /** The empty filter keeps every store. */
  lemma EmptyFilterKeepsAll(stores: seq<Store>)
    ensures FilterStores(stores, "") == stores
  {
    assert Text.Lower("") == "";
    forall i | 0 <= i < |stores|
      ensures StoreMatches(stores[i], "")
    {
      Text.IncludesEmpty(Text.Lower(stores[i].name));
    }
    Seqs.FilterKeepsAll(stores, st => StoreMatches(st, ""));
  }

  /** Filters equal up to case select the same stores. */
  lemma FilterIgnoresCase(stores: seq<Store>, f: string, g: string)
    requires Text.Lower(f) == Text.Lower(g)
    ensures FilterStores(stores, f) == FilterStores(stores, g)
  {
    Seqs.FilterCongruent(stores, st => StoreMatches(st, f), st => StoreMatches(st, g));
  }

  /** Each store is found by its own name and by its own address. */
  lemma StoreFoundByName(stores: seq<Store>, i: nat)
    requires i < |stores|
    ensures stores[i] in FilterStores(stores, stores[i].name)
    ensures stores[i] in FilterStores(stores, stores[i].address)
  {
    Text.MatchesSelf(stores[i].name);
    Text.MatchesSelf(stores[i].address);
  }

  /** `handleRatingChange`: logged out, an alert and no change; logged in,
      the new value at once, and no request whose failure could undo it. */
  function ChangeRating(s: PageState, user: Option<User>, id: StoreId, rating: int): (o: Outcome)
    ensures user.None? ==> o.state == s && o.alert == Some(LoginPrompt)
    ensures user.Some? ==>
      && o.alert.None?
      && id in o.state.ratings && o.state.ratings[id] == rating
      && AgreeExcept(s.ratings, o.state.ratings, id)
      && o.state.stores == s.stores && o.state.tab == s.tab && o.state.form == s.form
      && o.state.filter == s.filter
  {
    if user.None? then Outcome(s, Some(LoginPrompt))
    else Outcome(s.(ratings := s.ratings[id := rating]), None)
  }

  /** The widget of a store's row: `initialRating = ratings[id] || 0`,
      `disabled = !user`, and no saving state. */
  function WidgetFor(s: PageState, user: Option<User>, id: StoreId, hover: int): (w: Stars.Widget)
    ensures w.current == Displayed(s.ratings, id)
    ensures w.disabled <==> user.None?
    ensures !w.saving
  {
    Stars.Widget(hover, Displayed(s.ratings, id), user.None?, false)
  }

  /** A click on star `star` of store `id`: forwarded exactly when a user is
      logged in, and then applied for good. */
  function ClickStar(s: PageState, user: Option<User>, id: StoreId, star: int): (o: Outcome)
    ensures user.None? ==> o == Outcome(s, None)
    ensures user.Some? ==> id in o.state.ratings && o.state.ratings[id] == star
    ensures AgreeExcept(s.ratings, o.state.ratings, id)
    // the click never alerts and touches nothing but the rating map
    ensures o.alert.None?
    ensures o.state.stores == s.stores && o.state.tab == s.tab
    ensures o.state.form == s.form && o.state.filter == s.filter
  {
    match Stars.Click(WidgetFor(s, user, id, star), star)
    case None => Outcome(s, None)
    case Some(r) => ChangeRating(s, user, id, r)
  }

  /** Rating changes are final: a later change of another store never
      touches this one, and two changes to one store keep the later. */
  lemma ChangesAreFinal(s: PageState, u: User, a: StoreId, b: StoreId, ra: int, rb: int)
    ensures
      var t := ChangeRating(ChangeRating(s, Some(u), a, ra).state, Some(u), b, rb).state;
      a != b ==> t.ratings[a] == ra
    ensures
      var t := ChangeRating(ChangeRating(s, Some(u), a, ra).state, Some(u), a, rb).state;
      t.ratings[a] == rb
  {
  }

  /** A tab button: only the tab changes. */
  function SelectTab(s: PageState, tab: Tab): (t: PageState)
    ensures t.tab == tab && t.form == s.form && t.ratings == s.ratings
    ensures t.stores == s.stores && t.filter == s.filter
  {
    s.(tab := tab)
  }

  /** Typing in the search box: only the filter changes. */
  function SetFilter(s: PageState, filter: string): (t: PageState)
    ensures t.filter == filter && t.stores == s.stores && t.ratings == s.ratings
    ensures t.tab == s.tab && t.form == s.form
  {
    s.(filter := filter)
  }

  /** Typing in the current-password box. */
  function EditOld(s: PageState, text: string): (t: PageState)
    ensures t.form.oldPassword == text && t.form.newPassword == s.form.newPassword
    ensures t.tab == s.tab && t.stores == s.stores && t.ratings == s.ratings && t.filter == s.filter
  {
    s.(form := s.form.(oldPassword := text))
  }

  /** Typing in the new-password box. */
  function EditNew(s: PageState, text: string): (t: PageState)
    ensures t.form.newPassword == text && t.form.oldPassword == s.form.oldPassword
    ensures t.tab == s.tab && t.stores == s.stores && t.ratings == s.ratings && t.filter == s.filter
  {
    s.(form := s.form.(newPassword := text))
  }

  /** `handlePasswordChange`: an empty field is refused with the form and
      tab left as they were; otherwise a success alert, both fields
      cleared, and back to the stores tab. */
  function SubmitPassword(s: PageState): (o: Outcome)
    ensures s.form.oldPassword == "" || s.form.newPassword == "" ==>
      o.state == s && o.alert == Some(FillBothPrompt)
    ensures s.form.oldPassword != "" && s.form.newPassword != "" ==>
      && o.state.form == EmptyForm
      && o.state.tab == StoresTab
      && o.state.ratings == s.ratings && o.state.stores == s.stores && o.state.filter == s.filter
      && o.alert == Some(PasswordUpdated)
  {
    if s.form.oldPassword == "" || s.form.newPassword == "" then Outcome(s, Some(FillBothPrompt))
    else Outcome(s.(form := EmptyForm, tab := StoresTab), Some(PasswordUpdated))
  }

  /** Submitting the password form on the page. Both inputs are `required`,
      so the browser refuses an empty field with its own message and the
      handler never runs: no state change and no alert. Only a filled form
      reaches `handlePasswordChange`, whose empty-field branch therefore
      never shows on the page. */
  function SubmitForm(s: PageState): (o: Outcome)
    ensures s.form.oldPassword == "" || s.form.newPassword == "" ==> o == Outcome(s, None)
    ensures s.form.oldPassword != "" && s.form.newPassword != "" ==> o == SubmitPassword(s)
    ensures o.alert != Some(FillBothPrompt)
  {
    if s.form.oldPassword == "" || s.form.newPassword == "" then Outcome(s, None)
    else SubmitPassword(s)
  }

  /** A successful submit leaves an empty form: the handler would refuse a
      second submit with its alert, and on the page the browser refuses it
      before the handler runs, so nothing happens at all. */
  lemma ResubmitRefused(s: PageState)
    requires s.form.oldPassword != "" && s.form.newPassword != ""
    ensures SubmitPassword(SubmitPassword(s).state).alert == Some(FillBothPrompt)
    ensures SubmitForm(SubmitForm(s).state) == Outcome(SubmitForm(s).state, None)
  {
  }

  /** Filling both fields and submitting succeeds whatever the form held. */
  lemma FilledFormAccepted(s: PageState, current: string, next: string)
    requires current != "" && next != ""
    ensures SubmitPassword(EditNew(EditOld(s, current), next)).alert == Some(PasswordUpdated)
    ensures SubmitForm(EditNew(EditOld(s, current), next)).alert == Some(PasswordUpdated)
  {
  }
}
