/** The five-star rating widget (`InteractiveStars`) both rating pages draw,
    and the text shown beside it. The home-page widget takes a `saving`
    prop; the user-page widget has none, which is `saving == false` here. */
module Stars {

  import Common

  const StarCount := 5

  /** The props the widget receives plus its local hover state. */
  datatype Widget = Widget(hover: int, current: int, disabled: bool, saving: bool)

  /** A fresh widget: no star is hovered. */
  function Fresh(current: int, disabled: bool, saving: bool): (w: Widget)
    ensures w.hover == 0 && w.current == current
    ensures w.disabled == disabled && w.saving == saving
  {
    Widget(0, current, disabled, saving)
  }

  /** `handleStarClick`: the star value handed to `onRate`, or nothing when
      the widget is disabled or its store is saving. */
  function Click(w: Widget, star: int): (forwarded: Common.Option<int>)
    ensures forwarded.Some? <==> !w.disabled && !w.saving
    ensures forwarded.Some? ==> forwarded.value == star
  {
    if !w.disabled && !w.saving then Common.Some(star) else Common.None
  }

  /** The cursor class: `cursor-pointer` unless disabled or saving. */
  predicate PointerCursor(w: Widget)
  {
    !(w.disabled || w.saving)
  }

  /** A click goes through exactly when the cursor promises it will. */
  lemma ClickForwardedIffPointer(w: Widget, star: int)
    ensures Click(w, star).Some? <==> PointerCursor(w)
  {
  }

  /** `getStarColor`: star `i` is yellow when `i <= (hover || current)`. */
  predicate Highlighted(w: Widget, i: int)
  {
    i <= (if w.hover != 0 then w.hover else w.current)
  }

  /** The `fill` attribute: star `i` is filled when `i <= current`. */
  predicate Filled(w: Widget, i: int)
  {
    i <= w.current
  }

  /** `onMouseEnter` of star `i`. */
  function Enter(w: Widget, i: int): (w': Widget)
    ensures w'.hover == i
    ensures w'.current == w.current && w'.disabled == w.disabled && w'.saving == w.saving
  {
    w.(hover := i)
  }

  /** `onMouseLeave` of the whole row resets the hover. */
  function Leave(w: Widget): (w': Widget)
    ensures w'.hover == 0
    ensures w'.current == w.current && w'.disabled == w.disabled && w'.saving == w.saving
  {
    w.(hover := 0)
  }

  /** While a star is hovered, the highlighted stars are exactly those up to it. */
  lemma HoverHighlightsPrefix(w: Widget, k: int, i: int)
    requires 1 <= k <= StarCount
    ensures Highlighted(Enter(w, k), i) <==> i <= k
  {
  }

  /** With nothing hovered, the highlight is the fill: colour and fill agree. */
  lemma UnhoveredHighlightIsFill(w: Widget, i: int)
    requires w.hover == 0
    ensures Highlighted(w, i) <==> Filled(w, i)
  {
  }

  /** After the mouse leaves, every star's colour agrees with its fill again,
      whatever was hovered before. */
  lemma LeaveRestoresFill(w: Widget, i: int)
    ensures Highlighted(Leave(w), i) <==> Filled(w, i)
    ensures Filled(Leave(w), i) <==> Filled(w, i)
  {
  }

  /** The highlighted stars always form a prefix 1..n of the row. */
  lemma HighlightIsPrefix(w: Widget, i: int, j: int)
    requires j <= i
    requires Highlighted(w, i)
    ensures Highlighted(w, j)
  {
  }

  /** Hovering never changes which stars are filled. */
  lemma HoverKeepsFill(w: Widget, k: int, i: int)
    ensures Filled(Enter(w, k), i) <==> Filled(w, i)
  {
  }

  /** The caption beside the widget. */
  datatype Caption = SavingCaption | RatedCaption(stars: int) | PromptCaption

  /** Home page caption: "Saving..." while the store saves, then
      "Rated: n stars" for a positive rating, else the prompt. */
  function HomeCaption(rating: int, saving: bool): (c: Caption)
    ensures saving <==> c == SavingCaption
    ensures c.RatedCaption? ==> c.stars == rating && rating > 0
    ensures !saving && rating > 0 ==> c.RatedCaption?
  {
    if saving then SavingCaption else if rating > 0 then RatedCaption(rating) else PromptCaption
  }

  /** User page caption: "Rated: n stars" when the stored rating is truthy
      (present and non-zero), else the prompt; there is no saving state. */
  function UserCaption(ratings: Common.Ratings, id: Common.StoreId): (c: Caption)
    ensures c != SavingCaption
    ensures c.RatedCaption? <==> id in ratings && ratings[id] != 0
    ensures c.RatedCaption? ==> c.stars == ratings[id]
  {
    if id in ratings && ratings[id] != 0 then RatedCaption(ratings[id]) else PromptCaption
  }

  /** The two pages caption a store alike when nothing is saving and the
      ratings are the non-negative values the widget produces; they differ
      only on negative ratings, which the user page would still call rated. */
  lemma CaptionsAgree(ratings: Common.Ratings, id: Common.StoreId)
    requires id in ratings ==> ratings[id] >= 0
    ensures UserCaption(ratings, id) == HomeCaption(Common.Displayed(ratings, id), false)
  {
  }
}
