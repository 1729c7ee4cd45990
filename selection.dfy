/**
 * Selection effects of pygame-menu widgets, as far as their margins go: the four
 * margins of an effect, its width and height, `margin_xy`, `inflate` on an integer
 * rectangle, the None, Simple and Highlight effects, the abstract effects whose
 * `draw` is not implemented, copies, and the widget slot that holds the effect.
 */
module SelectionEffects {

  /** An integer rectangle, as `pygame.Rect` holds it. */
  datatype Rect = Rect(x: int, y: int, width: int, height: int)

  /** The four margins of a selection effect. */
  datatype Margins = Margins(left: int, right: int, top: int, bottom: int)

  const NoMargins: Margins := Margins(0, 0, 0, 0)

  /** `get_width()`: the horizontal margins together. */
  function Width(m: Margins): int
  {
    m.left + m.right
  }

  /** `get_height()`: the vertical margins together. */
  function Height(m: Margins): int
  {
    m.top + m.bottom
  }

  /** `inflate(rect)`: the rectangle grown by the margins on each side. */
  function InflateRect(m: Margins, r: Rect): Rect
  {
    Rect(r.x - m.left, r.y - m.top, r.width + m.left + m.right, r.height + m.top + m.bottom)
  }

  /** The margins of `HighlightSelection(margin_x, margin_y)`: half of each on either side. */
  function HighlightMargins(marginX: int, marginY: int): Margins
    requires marginX % 2 == 0 && marginY % 2 == 0
  {
    Margins(marginX / 2, marginX / 2, marginY / 2, marginY / 2)
  }

  /** The effect classes: the two abstract ones and the concrete ones. */
  datatype Kind =
    | AbstractSelection | NoEffect | SimpleEffect | HighlightEffect
    | AbstractArrow | LeftArrowEffect | RightArrowEffect

  /** `draw` is implemented by the concrete effects only. */
  predicate IsAbstract(kind: Kind)
  {
    kind == AbstractSelection || kind == AbstractArrow
  }

  /** What `draw` does: draw, or raise NotImplementedError. */
  datatype DrawOutcome = Drawn | NotImplemented

  // ---------------------------------------------------------------------------
  // Properties of the margin arithmetic
  // ---------------------------------------------------------------------------

  /** The inflated rectangle starts `left` and `top` earlier and is wider and taller by the width and the height. */
  lemma InflateGrows(m: Margins, r: Rect)
    ensures var s := InflateRect(m, r);
      r.x - s.x == m.left && r.y - s.y == m.top &&
      s.width - r.width == Width(m) && s.height - r.height == Height(m)
  {
  }

  /** Inflating leaves a rectangle as it is exactly when every margin is zero. */
  lemma InflateIdentity(m: Margins, r: Rect)
    ensures InflateRect(m, r) == r <==> m == NoMargins
  {
  }

  /** With margins that are not negative, the inflated rectangle contains the original one. */
  lemma InflateContains(m: Margins, r: Rect)
    requires m.left >= 0 && m.right >= 0 && m.top >= 0 && m.bottom >= 0
    ensures var s := InflateRect(m, r);
      s.x <= r.x && r.x + r.width <= s.x + s.width &&
      s.y <= r.y && r.y + r.height <= s.y + s.height
  {
  }

  /** Equal margins on opposite sides keep the centre of the rectangle (measured in doubled coordinates). */
  lemma InflateCentred(m: Margins, r: Rect)
    requires m.left == m.right && m.top == m.bottom
    ensures var s := InflateRect(m, r);
      2 * s.x + s.width == 2 * r.x + r.width && 2 * s.y + s.height == 2 * r.y + r.height
  {
  }

  /** A highlight reports its margins as its width and height and moves the corner by half of each. */
  lemma HighlightShift(marginX: int, marginY: int, r: Rect)
    requires marginX % 2 == 0 && marginY % 2 == 0
    ensures var m := HighlightMargins(marginX, marginY);
      Width(m) == marginX && Height(m) == marginY &&
      r.x - InflateRect(m, r).x == Width(m) / 2 && r.y - InflateRect(m, r).y == Height(m) / 2
  {
  }

  /** `margin_xy(x, y)` gives width 2x and height 2y and keeps the centre of what it inflates. */
  lemma MarginXYShape(x: int, y: int, r: Rect)
    ensures Width(Margins(x, x, y, y)) == 2 * x && Height(Margins(x, x, y, y)) == 2 * y
    ensures var s := InflateRect(Margins(x, x, y, y), r);
      2 * s.x + s.width == 2 * r.x + r.width && 2 * s.y + s.height == 2 * r.y + r.height
  {
    InflateCentred(Margins(x, x, y, y), r);
  }

  // ---------------------------------------------------------------------------
  // The effect objects
  // ---------------------------------------------------------------------------

  /** A selection effect; `margin_xy` and the border width change it in place. */
  class Effect {
    var marginLeft: int
    var marginRight: int
    var marginTop: int
    var marginBottom: int
    var borderWidth: int
    const kind: Kind
    const widgetApplyFontColor: bool

    function Margin(): Margins
      reads this
    {
      Margins(marginLeft, marginRight, marginTop, marginBottom)
    }

    /** No margin is negative, so the effect grows what it inflates. */
    predicate Valid()
      reads this
    {
      marginLeft >= 0 && marginRight >= 0 && marginTop >= 0 && marginBottom >= 0
    }

    /** `Selection(margin_left, margin_right, margin_top, margin_bottom)`, the abstract effect. */
    constructor Abstract(left: int, right: int, top: int, bottom: int)
      ensures kind == AbstractSelection && widgetApplyFontColor
      ensures Margin() == Margins(left, right, top, bottom) && borderWidth == 0
      ensures Valid() <==> left >= 0 && right >= 0 && top >= 0 && bottom >= 0
    {
      marginLeft, marginRight, marginTop, marginBottom := left, right, top, bottom;
      borderWidth := 0;
      kind := AbstractSelection;
      widgetApplyFontColor := true;
    }

    /** `ArrowSelection(margin_left, margin_right, margin_top, margin_bottom)`, the abstract arrow. */
    constructor Arrow(left: int, right: int, top: int, bottom: int)
      ensures kind == AbstractArrow && widgetApplyFontColor
      ensures Margin() == Margins(left, right, top, bottom) && borderWidth == 0
      ensures Valid() <==> left >= 0 && right >= 0 && top >= 0 && bottom >= 0
    {
      marginLeft, marginRight, marginTop, marginBottom := left, right, top, bottom;
      borderWidth := 0;
      kind := AbstractArrow;
      widgetApplyFontColor := true;
    }

    /** `LeftArrowSelection()` or `RightArrowSelection()`, with the margins it is given. */
    constructor ArrowSide(isLeft: bool, left: int, right: int, top: int, bottom: int)
      ensures kind == (if isLeft then LeftArrowEffect else RightArrowEffect) && widgetApplyFontColor
      ensures Margin() == Margins(left, right, top, bottom) && borderWidth == 0
      ensures Valid() <==> left >= 0 && right >= 0 && top >= 0 && bottom >= 0
    {
      marginLeft, marginRight, marginTop, marginBottom := left, right, top, bottom;
      borderWidth := 0;
      kind := if isLeft then LeftArrowEffect else RightArrowEffect;
      widgetApplyFontColor := true;
    }

    /** `NoneSelection()`: no margins, and the widget keeps its own font colour. */
    constructor NoneSelection()
      ensures kind == NoEffect && !widgetApplyFontColor
      ensures Margin() == NoMargins && borderWidth == 0 && Valid()
    {
      marginLeft, marginRight, marginTop, marginBottom := 0, 0, 0, 0;
      borderWidth := 0;
      kind := NoEffect;
      widgetApplyFontColor := false;
    }

    /** `SimpleSelection()`: no margins, and the widget takes the selection font colour. */
    constructor SimpleSelection()
      ensures kind == SimpleEffect && widgetApplyFontColor
      ensures Margin() == NoMargins && borderWidth == 0 && Valid()
    {
      marginLeft, marginRight, marginTop, marginBottom := 0, 0, 0, 0;
      borderWidth := 0;
      kind := SimpleEffect;
      widgetApplyFontColor := true;
    }

    /** `HighlightSelection(border_width, margin_x, margin_y)`: half of each margin on either side. */
    constructor HighlightSelection(border: int, marginX: int, marginY: int)
      requires marginX % 2 == 0 && marginY % 2 == 0
      ensures kind == HighlightEffect && widgetApplyFontColor
      ensures Margin() == HighlightMargins(marginX, marginY) && borderWidth == border
      ensures GetWidth() == marginX && GetHeight() == marginY
      ensures Valid() <==> marginX >= 0 && marginY >= 0
    {
      marginLeft, marginRight := marginX / 2, marginX / 2;
      marginTop, marginBottom := marginY / 2, marginY / 2;
      borderWidth := border;
      kind := HighlightEffect;
      widgetApplyFontColor := true;
    }

    /** `get_width()`: how much wider `inflate` makes any rectangle. */
    function GetWidth(): (w: int)
      reads this
      ensures forall r :: Inflate(r).width == r.width + w
      ensures Valid() ==> w >= 0
    {
      Width(Margin())
    }

    /** `get_height()`: how much taller `inflate` makes any rectangle. */
    function GetHeight(): (h: int)
      reads this
      ensures forall r :: Inflate(r).height == r.height + h
      ensures Valid() ==> h >= 0
    {
      Height(Margin())
    }

    /** `inflate(rect)`: the corner moves out by the left and top margins, the size grows by both margins of each axis. */
    function Inflate(r: Rect): (s: Rect)
      reads this
      ensures r.x - s.x == marginLeft && r.y - s.y == marginTop
      ensures s.width - r.width == marginLeft + marginRight && s.height - r.height == marginTop + marginBottom
      ensures Valid() ==>
        s.x <= r.x && r.x + r.width <= s.x + s.width &&
        s.y <= r.y && r.y + r.height <= s.y + s.height
      ensures s == r <==> Margin() == NoMargins
    {
      InflateRect(Margin(), r)
    }

    /** `margin_xy(x, y)`: x on the left and right, y on the top and bottom; nothing else changes. */
    method MarginXY(x: int, y: int)
      modifies this
      ensures marginLeft == x && marginRight == x && marginTop == y && marginBottom == y
      ensures borderWidth == old(borderWidth)
      ensures Valid() <==> x >= 0 && y >= 0
    {
      marginLeft := x;
      marginRight := x;
      marginTop := y;
      marginBottom := y;
    }

    /** `copy()`, `copy.copy` and `copy.deepcopy`: a new object with the same settings. */
    method Copy() returns (c: Effect)
      ensures fresh(c) && c != this
      ensures c.kind == kind && c.widgetApplyFontColor == widgetApplyFontColor
      ensures c.Margin() == Margin() && c.borderWidth == borderWidth
      ensures c.Valid() == Valid()
    {
      c := new Effect.Clone(this);
    }

    /** The object `Copy` returns. */
    constructor Clone(other: Effect)
      ensures kind == other.kind && widgetApplyFontColor == other.widgetApplyFontColor
      ensures Margin() == other.Margin() && borderWidth == other.borderWidth
    {
      marginLeft, marginRight := other.marginLeft, other.marginRight;
      marginTop, marginBottom := other.marginTop, other.marginBottom;
      borderWidth := other.borderWidth;
      kind := other.kind;
      widgetApplyFontColor := other.widgetApplyFontColor;
    }

    /** `draw(surface, widget)`: only raises, for the abstract effects; the drawing itself is not modelled. */
    method Draw() returns (r: DrawOutcome)
      ensures r == NotImplemented <==> IsAbstract(kind)
    {
      if kind == AbstractSelection || kind == AbstractArrow {
        return NotImplemented;
      }
      r := Drawn;
    }
  }

  /** The part of a widget that holds its selection effect. */
  class Widget {
    var selectionEffect: Effect

    /** A widget starts with a fresh None effect. */
    constructor ()
      ensures fresh(selectionEffect) && selectionEffect.kind == NoEffect && selectionEffect.Valid()
    {
      selectionEffect := new Effect.NoneSelection();
    }

    /** `get_selection_effect()`: the object in the slot, the very one `set_selection_effect` installed. */
    function GetSelectionEffect(): (e: Effect)
      reads this
      ensures e == selectionEffect
    {
      selectionEffect
    }

    /** `set_selection_effect(selection)`: the effect given, or a new None effect when there is none. */
    method SetSelectionEffect(selection: Effect?)
      modifies this
      ensures selection != null ==> GetSelectionEffect() == selection
      ensures selection == null ==>
        fresh(GetSelectionEffect()) && GetSelectionEffect() != old(GetSelectionEffect()) &&
        GetSelectionEffect().kind == NoEffect && !GetSelectionEffect().widgetApplyFontColor &&
        GetSelectionEffect().Margin() == NoMargins && GetSelectionEffect().Valid()
    {
      if selection == null {
        selectionEffect := new Effect.NoneSelection();
      } else {
        selectionEffect := selection;
      }
    }
  }

  /** The None and Simple effects inflate nothing; they differ only in the font colour. */
  lemma PlainEffectsInflateNothing(e: Effect, r: Rect)
    requires e.Margin() == NoMargins
    ensures e.Inflate(r) == r
  {
    InflateIdentity(e.Margin(), r);
  }
}
