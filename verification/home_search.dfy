/** The debounced store search of the home page (`fetchStores` and the
    effect around it in HomePage.jsx). The 300 ms timer is an abstract
    "fire" event and each fetch is an outstanding request answered by a
    later event. There is no generation check: whichever answer arrives
    last decides the list, and every answer clears the loading flag. */
module HomeSearch {

  import opened Common

  /** The result of `GET /stores/get?search=...`. */
  datatype FetchResult = Loaded(list: seq<Store>) | FetchFailed

  /** `searchQuery`, whether a debounce timer is armed, `loading`, `stores`,
      and the query texts of the fetches not yet answered. */
  datatype SearchState = SearchState(
    query: string, armed: bool, loading: bool, stores: seq<Store>, inFlight: seq<string>)

  /** The mounted page: empty query, the effect's first timer armed, the
      spinner shown, no stores. */
  const Initial := SearchState("", true, true, [], [])

  /** An edit of the search box. React skips the effect when the text is
      unchanged; otherwise the old timer is cleared and a new one armed. */
  function Edit(s: SearchState, text: string): (t: SearchState)
    ensures t.query == text
    ensures t.armed <==> s.armed || text != s.query
    ensures t.loading == s.loading && t.stores == s.stores && t.inFlight == s.inFlight
  {
    if text == s.query then s else s.(query := text, armed := true)
  }

  /** The timer fires: `fetchStores` sets `loading` and requests the text
      current at this moment. */
  function Fire(s: SearchState): (t: SearchState)
    requires s.armed
    ensures !t.armed && t.loading
    ensures t.inFlight == s.inFlight + [s.query]
    ensures t.query == s.query && t.stores == s.stores
  {
    s.(armed := false, loading := true, inFlight := s.inFlight + [s.query])
  }

  /** Fetch `k` is answered. Success replaces the list wholesale, failure
      keeps it; either way `finally` clears `loading`, even if another
      fetch is still outstanding. */
  function Respond(s: SearchState, k: nat, r: FetchResult): (t: SearchState)
    requires k < |s.inFlight|
    ensures !t.loading
    ensures r.Loaded? ==> t.stores == r.list
    ensures r.FetchFailed? ==> t.stores == s.stores
    ensures t.inFlight == Remove(s.inFlight, k)
    ensures t.query == s.query && t.armed == s.armed
  {
    var list := if r.Loaded? then r.list else s.stores;
    s.(loading := false, stores := list, inFlight := Remove(s.inFlight, k))
  }

  /** What the page area shows. */
  datatype View = Spinner | StoreList(stores: seq<Store>) | NoStores(query: string)

  function ViewOf(s: SearchState): (v: View)
    ensures v == Spinner <==> s.loading
    ensures v.StoreList? <==> !s.loading && |s.stores| > 0
    ensures v.StoreList? ==> v.stores == s.stores
    ensures v.NoStores? ==> v.query == s.query && s.stores == []
  {
    if s.loading then Spinner else if |s.stores| > 0 then StoreList(s.stores) else NoStores(s.query)
  }

  /** Whether some edit in `texts`, applied from query `q`, changes the text. */
  predicate Changes(q: string, texts: seq<string>)
    decreases |texts|
  {
    texts != [] && (texts[0] != q || Changes(texts[0], texts[1..]))
  }

  /** A burst of edits with no timer firing in between. */
  function Edits(s: SearchState, texts: seq<string>): SearchState
    decreases |texts|
  {
    if texts == [] then s else Edits(Edit(s, texts[0]), texts[1..])
  }

  /** A burst of edits keeps the last text, leaves the list, the spinner
      and the outstanding fetches alone, and leaves a timer armed exactly
      when one was armed before or some edit changed the text. */
  lemma {:induction false} EditsCoalesce(s: SearchState, texts: seq<string>)
    requires texts != []
    ensures Edits(s, texts).query == texts[|texts| - 1]
    ensures Edits(s, texts).armed <==> s.armed || Changes(s.query, texts)
    ensures Edits(s, texts).inFlight == s.inFlight
    ensures Edits(s, texts).stores == s.stores && Edits(s, texts).loading == s.loading
    decreases |texts|
  {
    if |texts| > 1 {
      EditsCoalesce(Edit(s, texts[0]), texts[1..]);
    }
  }

  /** Edits then one firing: exactly one fetch is issued, for the last text. */
  lemma EditsThenFire(s: SearchState, texts: seq<string>)
    requires texts != []
    requires s.armed || Changes(s.query, texts)
    ensures Edits(s, texts).armed
    ensures Fire(Edits(s, texts)).inFlight == s.inFlight + [texts[|texts| - 1]]
  {
    EditsCoalesce(s, texts);
  }

  /** Typing "a", "ab", "abc" into an idle page dispatches one fetch, for "abc". */
  lemma TypingCoalesces(s: SearchState)
    requires !s.armed && s.query == ""
    ensures Fire(Edits(s, ["a", "ab", "abc"])).inFlight == s.inFlight + ["abc"]
  {
    EditsThenFire(s, ["a", "ab", "abc"]);
  }

  /** Retyping the text already searched for arms no timer, so no fetch follows. */
  lemma SameTextArmsNothing(s: SearchState)
    requires !s.armed
    ensures !Edit(s, s.query).armed
  {
  }

  /** Last arrival wins: a search for `x` is overtaken by a search for `y`,
      the answer for `y` arrives first and the older answer for `x` last;
      the page then shows `x`'s stores under the query `y`, with no spinner. */
  lemma StaleResponseWins(s: SearchState, x: string, y: string, forX: seq<Store>, forY: seq<Store>)
    requires s.inFlight == [] && x != s.query && x != y
    ensures
      var s1 := Fire(Edit(s, x));
      var s2 := Fire(Edit(s1, y));
      var s3 := Respond(s2, 1, Loaded(forY));
      var s4 := Respond(s3, 0, Loaded(forX));
      && s2.inFlight == [x, y]
      && s3.stores == forY
      && s4.query == y && s4.stores == forX && s4.inFlight == []
      && !s4.loading
  {
  }

  /** The first answer of two clears the spinner while the other fetch is
      still outstanding. */
  lemma EarlyAnswerClearsSpinner(s: SearchState, x: string, y: string, r: FetchResult)
    requires s.inFlight == [] && x != s.query && x != y
    ensures
      var s2 := Fire(Edit(Fire(Edit(s, x)), y));
      var s3 := Respond(s2, 0, r);
      && ViewOf(s2) == Spinner
      && ViewOf(s3) != Spinner
      && s3.inFlight == [y]
  {
  }

  /** The events of the search controller. */
  datatype Event = Edited(text: string) | TimerFired | Responded(k: nat, result: FetchResult)

  /** A timer fires only while armed; only an outstanding fetch is answered. */
  predicate Enabled(s: SearchState, e: Event)
  {
    match e
    case Edited(_) => true
    case TimerFired => s.armed
    case Responded(k, _) => k < |s.inFlight|
  }

  function Step(s: SearchState, e: Event): SearchState
    requires Enabled(s, e)
  {
    match e
    case Edited(text) => Edit(s, text)
    case TimerFired => Fire(s)
    case Responded(k, r) => Respond(s, k, r)
  }

  predicate ValidRun(s: SearchState, es: seq<Event>)
    decreases |es|
  {
    es == [] || (Enabled(s, es[0]) && ValidRun(Step(s, es[0]), es[1..]))
  }

  function Run(s: SearchState, es: seq<Event>): SearchState
    requires ValidRun(s, es)
    decreases |es|
  {
    if es == [] then s else Run(Step(s, es[0]), es[1..])
  }

  /** The spinner is never stranded: while it shows, a timer is armed or a
      fetch is outstanding, so some later event will clear it. */
  ghost predicate Inv(s: SearchState)
  {
    s.loading ==> s.armed || |s.inFlight| > 0
  }

  lemma {:induction false} RunPreservesInv(s: SearchState, es: seq<Event>)
    requires Inv(s)
    requires ValidRun(s, es)
    ensures Inv(Run(s, es))
    decreases |es|
  {
    if es != [] {
      RunPreservesInv(Step(s, es[0]), es[1..]);
    }
  }

  /** From the mounted page, every reachable state can clear its spinner. */
  lemma ReachableSpinnerClears(es: seq<Event>)
    requires ValidRun(Initial, es)
    ensures Run(Initial, es).loading ==>
      Run(Initial, es).armed || |Run(Initial, es).inFlight| > 0
  {
    RunPreservesInv(Initial, es);
  }

  /** Once no timer is armed and nothing is outstanding, the spinner is
      gone: the page shows the last list received, or "No stores found"
      for the current query when that list is empty. */
  lemma QuietPageShowsList(es: seq<Event>)
    requires ValidRun(Initial, es)
    requires !Run(Initial, es).armed && Run(Initial, es).inFlight == []
    ensures ViewOf(Run(Initial, es)) != Spinner
    ensures ViewOf(Run(Initial, es)) ==
      if |Run(Initial, es).stores| > 0 then StoreList(Run(Initial, es).stores)
      else NoStores(Run(Initial, es).query)
  {
    RunPreservesInv(Initial, es);
  }
}
