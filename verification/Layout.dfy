/**
 The panel's layout (src/layout.rs) in exact arithmetic: device-independent lengths are reals,
 pixels are integers rounded half away from zero, and the code's 32-bit saturations and its
 infinite and undefined quotients are written out.
 */
module Layout {
  import opened Wrappers
  import opened Arithmetic

  const MIN_ICON_DIP: nat := 24
  const MAX_ICON_DIP: nat := 256
  const MAX_WINDOWS: nat := 4096
  const I32_MIN: int := -0x8000_0000
  const I32_MAX: int := 0x7FFF_FFFF
  const USIZE_MAX: nat := 0xFFFF_FFFF_FFFF_FFFF

  predicate IsI32(x: int) { I32_MIN <= x <= I32_MAX }

  function Saturate(x: int): (r: int)
    ensures IsI32(r)
  {
    if x < I32_MIN then I32_MIN else if x > I32_MAX then I32_MAX else x
  }

  datatype Rect = Rect(left: int, top: int, right: int, bottom: int) {
    function Width(): int { Saturate(right - left) }
    function Height(): int { Saturate(bottom - top) }
    predicate Contains(x: int, y: int) { left <= x < right && top <= y < bottom }
    predicate IsValid() { IsI32(left) && IsI32(top) && IsI32(right) && IsI32(bottom) }
  }

  predicate InsideOf(inner: Rect, outer: Rect) {
    outer.left <= inner.left && inner.right <= outer.right && outer.top <= inner.top && inner.bottom <= outer.bottom
  }

  predicate IsProper(r: Rect) { r.left <= r.right && r.top <= r.bottom }

  predicate Disjoint(a: Rect, b: Rect) {
    a.right <= b.left || b.right <= a.left || a.bottom <= b.top || b.bottom <= a.top
  }

  datatype Options = Options(
    panelWidth: nat, panelHeight: nat, iconSize: nat, iconPadding: nat, itemGap: nat, panelPadding: nat,
    maxWidth: nat, maxHeight: nat, maxColumns: nat)

  datatype Item = Item(index: nat, outer: Rect, icon: Rect)

  datatype Snapshot = Snapshot(
    bounds: Rect, iconSize: int, capacity: nat, page: nat, items: seq<Item>, footer: Option<Rect>)

  datatype LayoutError = Conflict | BadCount | BadDpi | NoMonitor | NoHeight | NoWidth | NoFit | NoPixels

  // ---- Lengths -----------------------------------------------------------

  function Least(a: real, b: real): real { if a <= b then a else b }

  /** `f64::round`: half away from zero. */
  function Round(x: real): int {
    if x >= 0.0 then (x + 0.5).Floor else -((-x + 0.5).Floor)
  }

  function Px(dip: real, scale: real): int {
    Saturate(Round(dip * scale))
  }

  lemma RoundMonotone(a: real, b: real)
    requires a <= b
    ensures Round(a) <= Round(b)
  {
  }

  lemma TimesMonotone(a: real, b: real, c: real)
    requires a <= b && c >= 0.0
    ensures a * c <= b * c
  {
    assert (b - a) * c >= 0.0;
  }

  lemma PxMonotone(a: real, b: real, scale: real)
    requires a <= b && scale > 0.0
    ensures Px(a, scale) <= Px(b, scale)
  {
    TimesMonotone(a, b, scale);
    RoundMonotone(a * scale, b * scale);
  }

  lemma PxZero(scale: real)
    ensures Px(0.0, scale) == 0
  {
  }

  /** A length of at most `pixels` in the panel's units takes at most that many pixels. */
  lemma PxWithin(dip: real, pixels: int, scale: real)
    requires scale > 0.0 && 0 <= pixels <= I32_MAX && dip <= pixels as real / scale
    ensures Px(dip, scale) <= pixels
  {
    TimesMonotone(dip, pixels as real / scale, scale);
    assert pixels as real / scale * scale == pixels as real;
    RoundMonotone(dip * scale, pixels as real);
    assert (pixels as real + 0.5).Floor == pixels;
  }

  // ---- What fits ---------------------------------------------------------

  predicate ValidFor(o: Options, nameHeight: nat) {
    var minimum := MIN_ICON_DIP + 2 * (o.iconPadding + o.panelPadding);
    && (o.panelWidth == 0 || o.panelWidth >= minimum)
    && (o.panelHeight == 0 || o.panelHeight >= minimum + nameHeight)
    && (o.maxWidth == 0 || o.maxWidth >= minimum)
    && (o.maxHeight == 0 || o.maxHeight >= minimum + nameHeight)
  }

  function Limit(pixels: int, maximum: nat, scale: real): real
    requires scale > 0.0
  {
    var available := pixels as real / scale;
    if maximum == 0 then available else Least(available, maximum as real)
  }

  function Target(requested: nat, maximum: real): real {
    if requested == 0 then maximum else Least(requested as real, maximum)
  }

  /** The number of icons that fit side by side; `None` for less than one. A zero divisor makes the
      quotient infinite, or undefined when there is nothing to divide. */
  function SlotsThatFit(length: real, unit: real): (r: Option<nat>)
    ensures r.Some? ==> r.value >= 1
  {
    if unit == 0.0 then (if length > 0.0 then Some(USIZE_MAX) else None)
    else
      var slots := (length / unit).Floor;
      if slots >= 1 then Some(if slots <= USIZE_MAX then slots else USIZE_MAX) else None
  }

  function Min(a: nat, b: nat): nat { if a <= b then a else b }

  /** The lengths the layout is made of. */
  datatype Fit = Fit(capacity: nat, icon: nat, item: real, gap: real, rowWidth: real,
                     width: real, height: real, panelPadding: real, iconPadding: real, nameHeight: real)

  function Capacity(slots: nat, maxColumns: nat, count: nat): (r: nat)
    requires slots >= 1 && count >= 1
    ensures 1 <= r <= count && r <= slots && (maxColumns > 0 ==> r <= maxColumns)
  {
    Min(Min(slots, if maxColumns == 0 then MAX_WINDOWS else maxColumns), count)
  }

  /** The width of each of `capacity` icons that fill a row. */
  function WidthFit(innerWidth: real, capacity: nat, gap: real, iconPadding: real): real
    requires capacity > 0
  {
    (innerWidth - (capacity - 1) as real * gap) / capacity as real - 2.0 * iconPadding
  }

  function FitWith(o: Options, width: real, height: real, capacity: nat, icon: nat, nameHeight: nat): Fit
    requires capacity > 0
  {
    var panelPadding, iconPadding, gap := o.panelPadding as real, o.iconPadding as real, o.itemGap as real;
    var item := icon as real + 2.0 * iconPadding;
    var rowWidth := capacity as real * item + (capacity - 1) as real * gap;
    Fit(capacity, icon, item, gap, rowWidth,
        if o.panelWidth == 0 then rowWidth + 2.0 * panelPadding else width,
        if o.panelHeight == 0 then item + 2.0 * panelPadding + nameHeight as real else height,
        panelPadding, iconPadding, nameHeight as real)
  }

  function FitPanel(o: Options, areaWidth: int, areaHeight: int, scale: real, count: nat, nameHeight: nat)
    : Result<Fit, LayoutError>
    requires scale > 0.0 && 0 < count
  {
    var width := Target(o.panelWidth, Limit(areaWidth, o.maxWidth, scale));
    var height := Target(o.panelHeight, Limit(areaHeight, o.maxHeight, scale));
    var panelPadding, iconPadding, gap := o.panelPadding as real, o.iconPadding as real, o.itemGap as real;
    var innerWidth := width - 2.0 * panelPadding;
    var innerHeight := height - 2.0 * panelPadding - nameHeight as real;
    var heightFit := innerHeight - 2.0 * iconPadding;
    if heightFit < MIN_ICON_DIP as real then Err(NoHeight)
    else
      var explicit := o.panelWidth != 0 || o.panelHeight != 0;
      var preferred :=
        if explicit then MIN_ICON_DIP as real
        else Least(Least(o.iconSize as real, heightFit), innerWidth - 2.0 * iconPadding);
      match SlotsThatFit(innerWidth + gap, preferred + 2.0 * iconPadding + gap)
      case None => Err(NoWidth)
      case Some(slots) =>
        var capacity := Capacity(slots, o.maxColumns, count);
        var widthFit := WidthFit(innerWidth, capacity, gap, iconPadding);
        var naturalLimit := if explicit then MAX_ICON_DIP else o.iconSize;
        var icon := Least(Least(widthFit, heightFit), naturalLimit as real).Floor;
        if icon < MIN_ICON_DIP then Err(NoFit) else Ok(FitWith(o, width, height, capacity, icon, nameHeight))
  }

  function RowLeft(f: Fit): real { (f.width - f.rowWidth) / 2.0 }

  function RowTop(f: Fit): real { (f.height - f.nameHeight - f.item) / 2.0 }

  /** Where the `k`-th item of a page begins. */
  function ItemLeft(f: Fit, k: nat): real { RowLeft(f) + k as real * (f.item + f.gap) }

  function ItemAt(f: Fit, scale: real, first: nat, k: nat): Item {
    var x, y, icon := ItemLeft(f, k), RowTop(f), f.icon as real;
    Item(first + k,
         Rect(Px(x, scale), Px(y, scale), Px(x + f.item, scale), Px(y + f.item, scale)),
         Rect(Px(x + f.iconPadding, scale), Px(y + f.iconPadding, scale),
              Px(x + f.iconPadding + icon, scale), Px(y + f.iconPadding + icon, scale)))
  }

  function FooterAt(f: Fit, scale: real): Rect {
    Rect(Px(f.panelPadding, scale), Px(f.height - f.panelPadding - f.nameHeight, scale),
         Px(f.width - f.panelPadding, scale), Px(f.height - f.panelPadding, scale))
  }

  function Place(f: Fit, area: Rect, scale: real, count: nat, selected: nat, named: bool): Result<Snapshot, LayoutError>
    requires f.capacity > 0 && selected < count
  {
    var width, height := Min32(Px(f.width, scale), area.Width()), Min32(Px(f.height, scale), area.Height());
    if width <= 0 || height <= 0 then Err(NoPixels)
    else
      var left := Saturate(area.left + (area.Width() - width) / 2);
      var top := Saturate(area.top + (area.Height() - height) / 2);
      var page := selected / f.capacity;
      var first := page * f.capacity;
      PageStart(selected, f.capacity);
      var shown := Min(first + f.capacity, count) - first;
      Ok(Snapshot(Rect(left, top, Saturate(left + width), Saturate(top + height)),
                  Px(f.icon as real, scale), f.capacity, page,
                  seq(shown, k requires 0 <= k => ItemAt(f, scale, first, k)),
                  if named then Some(FooterAt(f, scale)) else None))
  }

  function Min32(a: int, b: int): int { if a <= b then a else b }

  lemma PageStart(selected: nat, capacity: nat)
    requires capacity > 0
    ensures 0 <= selected / capacity * capacity <= selected < selected / capacity * capacity + capacity
  {
    assert selected == selected / capacity * capacity + selected % capacity;
    MulMonotone(0, selected / capacity, capacity);
  }

  /** `LayoutSnapshot::calculate`. */
  function Calculate(o: Options, area: Rect, dpi: nat, count: nat, selected: nat, nameHeight: nat)
    : Result<Snapshot, LayoutError>
  {
    if !ValidFor(o, nameHeight) then Err(Conflict)
    else if count == 0 || count > MAX_WINDOWS || selected >= count then Err(BadCount)
    else if !(48 <= dpi <= 960) then Err(BadDpi)
    else if area.Width() <= 0 || area.Height() <= 0 then Err(NoMonitor)
    else
      var scale := dpi as real / 96.0;
      match FitPanel(o, area.Width(), area.Height(), scale, count, nameHeight)
      case Err(e) => Err(e)
      case Ok(f) => Place(f, area, scale, count, selected, nameHeight != 0)
  }

  /** `hit_test`: the first item under the point, unless the subtraction leaves 32 bits. */
  function HitTest(s: Snapshot, screenX: int, screenY: int): Option<nat> {
    var x, y := screenX - s.bounds.left, screenY - s.bounds.top;
    if !IsI32(x) || !IsI32(y) then None else FirstAt(s.items, x, y)
  }

  function FirstAt(items: seq<Item>, x: int, y: int): Option<nat> {
    if items == [] then None
    else if items[0].outer.Contains(x, y) then Some(items[0].index)
    else FirstAt(items[1..], x, y)
  }

  // ---- What a fit guarantees ---------------------------------------------

  ghost predicate Fits(f: Fit, areaWidth: int, areaHeight: int, scale: real) {
    && scale > 0.0 && f.capacity > 0 && f.icon >= MIN_ICON_DIP
    && f.gap >= 0.0 && f.panelPadding >= 0.0 && f.iconPadding >= 0.0 && f.nameHeight >= 0.0
    && f.item == f.icon as real + 2.0 * f.iconPadding
    && f.rowWidth == f.capacity as real * f.item + (f.capacity - 1) as real * f.gap
    && f.rowWidth + 2.0 * f.panelPadding <= f.width <= areaWidth as real / scale
    && f.item + 2.0 * f.panelPadding + f.nameHeight <= f.height <= areaHeight as real / scale
  }

  /** A row of icons no wider than the width that fits is no wider than the panel. */
  lemma RowFits(innerWidth: real, capacity: nat, gap: real, iconPadding: real, icon: real)
    requires capacity > 0 && icon <= WidthFit(innerWidth, capacity, gap, iconPadding)
    ensures capacity as real * (icon + 2.0 * iconPadding) + (capacity - 1) as real * gap <= innerWidth
  {
    var room := innerWidth - (capacity - 1) as real * gap;
    TimesMonotone(icon + 2.0 * iconPadding, room / capacity as real, capacity as real);
    assert room / capacity as real * capacity as real == room;
  }

  lemma TargetWithin(requested: nat, pixels: int, maximum: nat, scale: real)
    requires scale > 0.0
    ensures Target(requested, Limit(pixels, maximum, scale)) <= pixels as real / scale
  {
  }

  lemma FitWithFits(o: Options, width: real, height: real, capacity: nat, icon: nat, nameHeight: nat,
                    areaWidth: int, areaHeight: int, scale: real)
    requires capacity > 0 && icon >= MIN_ICON_DIP && scale > 0.0
    requires icon as real <= WidthFit(width - 2.0 * o.panelPadding as real, capacity, o.itemGap as real, o.iconPadding as real)
    requires icon as real + 2.0 * o.iconPadding as real + 2.0 * o.panelPadding as real + nameHeight as real <= height
    requires width <= areaWidth as real / scale && height <= areaHeight as real / scale
    ensures Fits(FitWith(o, width, height, capacity, icon, nameHeight), areaWidth, areaHeight, scale)
  {
    RowFits(width - 2.0 * o.panelPadding as real, capacity, o.itemGap as real, o.iconPadding as real, icon as real);
  }

  lemma FloorBelow(a: real, b: real, c: real)
    ensures Least(Least(a, b), c).Floor as real <= a && Least(Least(a, b), c).Floor as real <= b
  {
  }

  lemma FitPanelFits(o: Options, areaWidth: int, areaHeight: int, scale: real, count: nat, nameHeight: nat)
    requires scale > 0.0 && 0 < count && FitPanel(o, areaWidth, areaHeight, scale, count, nameHeight).Ok?
    ensures Fits(FitPanel(o, areaWidth, areaHeight, scale, count, nameHeight).value, areaWidth, areaHeight, scale)
    ensures FitPanel(o, areaWidth, areaHeight, scale, count, nameHeight).value.capacity <= count
  {
    var f := FitPanel(o, areaWidth, areaHeight, scale, count, nameHeight).value;
    var width := Target(o.panelWidth, Limit(areaWidth, o.maxWidth, scale));
    var height := Target(o.panelHeight, Limit(areaHeight, o.maxHeight, scale));
    TargetWithin(o.panelWidth, areaWidth, o.maxWidth, scale);
    TargetWithin(o.panelHeight, areaHeight, o.maxHeight, scale);
    FloorBelow(WidthFit(width - 2.0 * o.panelPadding as real, f.capacity, o.itemGap as real, o.iconPadding as real),
               height - 2.0 * o.panelPadding as real - nameHeight as real - 2.0 * o.iconPadding as real,
               (if o.panelWidth != 0 || o.panelHeight != 0 then MAX_ICON_DIP else o.iconSize) as real);
    FitWithFits(o, width, height, f.capacity, f.icon, nameHeight, areaWidth, areaHeight, scale);
  }

  // ---- Where things are --------------------------------------------------

  lemma ItemsInRow(f: Fit, w: int, h: int, scale: real, k: nat)
    requires Fits(f, w, h, scale) && k < f.capacity
    ensures 0.0 <= f.panelPadding <= RowLeft(f) <= ItemLeft(f, k)
    ensures ItemLeft(f, k) + f.item <= RowLeft(f) + f.rowWidth <= f.width - f.panelPadding
    ensures ItemLeft(f, k + 1) >= ItemLeft(f, k) + f.item
  {
    var unit, last := f.item + f.gap, (f.capacity - 1) as real;
    TimesMonotone(0.0, k as real, unit);
    TimesMonotone(k as real, last, unit);
    assert f.capacity as real * f.item == last * f.item + f.item;
    assert last * unit == last * f.item + last * f.gap;
    assert f.rowWidth == last * unit + f.item;
    assert (k + 1) as real * (f.item + f.gap) == k as real * (f.item + f.gap) + (f.item + f.gap);
  }

  lemma LaterItems(f: Fit, w: int, h: int, scale: real, j: nat, k: nat)
    requires Fits(f, w, h, scale) && j < k < f.capacity
    ensures ItemLeft(f, j) + f.item <= ItemLeft(f, k)
  {
    var unit, a, b := f.item + f.gap, j as real, k as real;
    assert (j + 1) as real == a + 1.0 <= b;
    TimesMonotone(a + 1.0, b, unit);
    assert (a + 1.0) * unit == a * unit + unit;
    assert a * unit + f.item <= b * unit;
  }

  lemma RowIsAboveFooter(f: Fit, w: int, h: int, scale: real)
    requires Fits(f, w, h, scale)
    ensures 0.0 <= f.panelPadding <= RowTop(f)
    ensures RowTop(f) + f.item <= f.height - f.panelPadding - f.nameHeight
  {
  }

  /** A point of the panel, between its edges, is a pixel of the panel. */
  lemma PxInPanel(dip: real, length: real, pixels: int, scale: real)
    requires scale > 0.0 && 0.0 <= dip <= length && length <= pixels as real / scale && 0 <= pixels <= I32_MAX
    ensures 0 <= Px(dip, scale) <= Px(length, scale) <= pixels
  {
    PxMonotone(0.0, dip, scale);
    PxMonotone(dip, length, scale);
    PxWithin(length, pixels, scale);
    PxZero(scale);
  }

  /** The panel as items see it: from its own corner. */
  function Local(f: Fit, scale: real): Rect {
    Rect(0, 0, Px(f.width, scale), Px(f.height, scale))
  }

  lemma ItemInPanel(f: Fit, w: int, h: int, scale: real, first: nat, k: nat)
    requires Fits(f, w, h, scale) && k < f.capacity && 0 <= w <= I32_MAX && 0 <= h <= I32_MAX
    ensures var item := ItemAt(f, scale, first, k);
      InsideOf(item.outer, Local(f, scale)) && InsideOf(item.icon, item.outer) && IsProper(item.outer)
  {
    var x, y, icon := ItemLeft(f, k), RowTop(f), f.icon as real;
    ItemsInRow(f, w, h, scale, k);
    RowIsAboveFooter(f, w, h, scale);
    PxInPanel(x, f.width, w, scale);
    PxInPanel(x + f.item, f.width, w, scale);
    PxInPanel(y, f.height, h, scale);
    PxInPanel(y + f.item, f.height, h, scale);
    PxMonotone(x, x + f.item, scale);
    PxMonotone(y, y + f.item, scale);
    PxMonotone(x, x + f.iconPadding, scale);
    PxMonotone(y, y + f.iconPadding, scale);
    PxMonotone(x + f.iconPadding + icon, x + f.item, scale);
    PxMonotone(y + f.iconPadding + icon, y + f.item, scale);
  }

  lemma ItemsApart(f: Fit, w: int, h: int, scale: real, first: nat, j: nat, k: nat)
    requires Fits(f, w, h, scale) && j < k < f.capacity
    ensures Disjoint(ItemAt(f, scale, first, j).outer, ItemAt(f, scale, first, k).outer)
  {
    LaterItems(f, w, h, scale, j, k);
    PxMonotone(ItemLeft(f, j) + f.item, ItemLeft(f, k), scale);
  }

  lemma FooterApart(f: Fit, w: int, h: int, scale: real, first: nat, k: nat)
    requires Fits(f, w, h, scale) && k < f.capacity
    ensures Disjoint(ItemAt(f, scale, first, k).outer, FooterAt(f, scale))
  {
    RowIsAboveFooter(f, w, h, scale);
    PxMonotone(RowTop(f) + f.item, f.height - f.panelPadding - f.nameHeight, scale);
  }

  lemma FooterInPanel(f: Fit, w: int, h: int, scale: real)
    requires Fits(f, w, h, scale) && 0 <= w <= I32_MAX && 0 <= h <= I32_MAX
    ensures InsideOf(FooterAt(f, scale), Local(f, scale)) && IsProper(FooterAt(f, scale))
  {
    ItemsInRow(f, w, h, scale, 0);
    RowIsAboveFooter(f, w, h, scale);
    PxMonotone(f.panelPadding, f.width - f.panelPadding, scale);
    PxMonotone(f.height - f.panelPadding - f.nameHeight, f.height - f.panelPadding, scale);
    PxInPanel(f.panelPadding, f.width, w, scale);
    PxInPanel(f.width - f.panelPadding, f.width, w, scale);
    PxInPanel(f.height - f.panelPadding - f.nameHeight, f.height, h, scale);
    PxInPanel(f.height - f.panelPadding, f.height, h, scale);
  }

  // ---- Main results ------------------------------------------------------

  /** The panel measured from its own corner, which is how items and the footer are given. */
  function Panel(s: Snapshot): Rect {
    Rect(0, 0, s.bounds.right - s.bounds.left, s.bounds.bottom - s.bounds.top)
  }

  /** Nothing overlaps and nothing sticks out. */
  ghost predicate WellPlaced(s: Snapshot) {
    && IsI32(Panel(s).right) && IsI32(Panel(s).bottom)
    && (forall i :: 0 <= i < |s.items| ==> InsideOf(s.items[i].outer, Panel(s)) && IsProper(s.items[i].outer))
    && (forall i :: 0 <= i < |s.items| ==> InsideOf(s.items[i].icon, s.items[i].outer))
    && (forall i, j :: 0 <= i < j < |s.items| ==> Disjoint(s.items[i].outer, s.items[j].outer))
    && (s.footer.Some? ==>
          InsideOf(s.footer.value, Panel(s)) && IsProper(s.footer.value)
          && forall i :: 0 <= i < |s.items| ==> Disjoint(s.items[i].outer, s.footer.value))
  }

  lemma PlacedWell(f: Fit, area: Rect, scale: real, count: nat, selected: nat, named: bool)
    requires area.IsValid() && Fits(f, area.Width(), area.Height(), scale) && selected < count
    requires Place(f, area, scale, count, selected, named).Ok?
    ensures var s := Place(f, area, scale, count, selected, named).value;
      InsideOf(s.bounds, area) && Panel(s) == Local(f, scale) && WellPlaced(s)
  {
    var s := Place(f, area, scale, count, selected, named).value;
    var w, h := area.Width(), area.Height();
    PanelInArea(f, area, scale, count, selected, named);
    var first := s.page * f.capacity;
    PageStart(selected, f.capacity);
    forall i | 0 <= i < |s.items|
      ensures InsideOf(s.items[i].outer, Panel(s)) && InsideOf(s.items[i].icon, s.items[i].outer)
      ensures IsProper(s.items[i].outer)
      ensures s.footer.Some? ==> Disjoint(s.items[i].outer, s.footer.value)
    {
      ItemInPanel(f, w, h, scale, first, i);
      FooterApart(f, w, h, scale, first, i);
    }
    forall i, j | 0 <= i < j < |s.items|
      ensures Disjoint(s.items[i].outer, s.items[j].outer)
    {
      ItemsApart(f, w, h, scale, first, i, j);
    }
    FooterInPanel(f, w, h, scale);
  }

  lemma PanelInArea(f: Fit, area: Rect, scale: real, count: nat, selected: nat, named: bool)
    requires area.IsValid() && Fits(f, area.Width(), area.Height(), scale) && selected < count
    requires Place(f, area, scale, count, selected, named).Ok?
    ensures var s := Place(f, area, scale, count, selected, named).value;
      InsideOf(s.bounds, area) && Panel(s) == Local(f, scale)
  {
    PxWithinArea(f.width, area.Width(), scale);
    PxWithinArea(f.height, area.Height(), scale);
  }

  lemma PxWithinArea(length: real, pixels: int, scale: real)
    requires scale > 0.0 && length <= pixels as real / scale && IsI32(pixels)
    ensures pixels > 0 ==> Px(length, scale) <= pixels
  {
    if pixels > 0 {
      PxWithin(length, pixels, scale);
    }
  }

  /** A layout that succeeds lies in the available area, with its items and footer inside the panel,
      icons inside their items, and no two of them overlapping. */
  lemma LayoutIsWellPlaced(o: Options, area: Rect, dpi: nat, count: nat, selected: nat, nameHeight: nat)
    requires area.IsValid() && Calculate(o, area, dpi, count, selected, nameHeight).Ok?
    ensures var s := Calculate(o, area, dpi, count, selected, nameHeight).value;
      InsideOf(s.bounds, area) && WellPlaced(s)
  {
    var scale := dpi as real / 96.0;
    FitPanelFits(o, area.Width(), area.Height(), scale, count, nameHeight);
    var f := FitPanel(o, area.Width(), area.Height(), scale, count, nameHeight).value;
    PlacedWell(f, area, scale, count, selected, nameHeight != 0);
  }

  /** The pages share out `0..count` in order, and the selected item is on the page shown. */
  lemma PagesPartition(o: Options, area: Rect, dpi: nat, count: nat, selected: nat, nameHeight: nat)
    requires Calculate(o, area, dpi, count, selected, nameHeight).Ok?
    ensures var s := Calculate(o, area, dpi, count, selected, nameHeight).value;
      && 1 <= s.capacity <= count && 0 < |s.items| <= s.capacity
      && (forall i :: 0 <= i < |s.items| ==> s.items[i].index == s.page * s.capacity + i)
      && (forall index: nat :: (exists i :: 0 <= i < |s.items| && s.items[i].index == index)
                               <==> index < count && index / s.capacity == s.page)
      && selected / s.capacity == s.page
  {
    var scale := dpi as real / 96.0;
    FitPanelFits(o, area.Width(), area.Height(), scale, count, nameHeight);
    var s := Calculate(o, area, dpi, count, selected, nameHeight).value;
    var first := s.page * s.capacity;
    PageStart(selected, s.capacity);
    forall index: nat
      ensures (exists i :: 0 <= i < |s.items| && s.items[i].index == index)
              <==> index < count && index / s.capacity == s.page
    {
      PageStart(index, s.capacity);
      if first <= index < first + |s.items| {
        assert s.items[index - first].index == index;
        DivModIs(index, s.page, index - first, s.capacity);
      }
    }
  }

  lemma {:induction false} FirstAtFinds(items: seq<Item>, x: int, y: int, i: nat)
    requires i < |items| && items[i].outer.Contains(x, y)
    requires forall j, k :: 0 <= j < k < |items| ==> Disjoint(items[j].outer, items[k].outer)
    ensures FirstAt(items, x, y) == Some(items[i].index)
    decreases |items|
  {
    if i > 0 {
      assert Disjoint(items[0].outer, items[i].outer);
      assert forall j, k :: 0 <= j < k < |items[1..]| ==>
        items[1..][j] == items[j + 1] && items[1..][k] == items[k + 1];
      FirstAtFinds(items[1..], x, y, i - 1);
    }
  }

  lemma {:induction false} FirstAtIsThere(items: seq<Item>, x: int, y: int)
    ensures FirstAt(items, x, y).Some? ==>
      exists i :: 0 <= i < |items| && items[i].outer.Contains(x, y) && items[i].index == FirstAt(items, x, y).value
    ensures FirstAt(items, x, y).None? ==> forall i :: 0 <= i < |items| ==> !items[i].outer.Contains(x, y)
    decreases |items|
  {
    if items != [] && !items[0].outer.Contains(x, y) {
      FirstAtIsThere(items[1..], x, y);
      if FirstAt(items, x, y).Some? {
        var i :| 0 <= i < |items[1..]| && items[1..][i].outer.Contains(x, y)
                 && items[1..][i].index == FirstAt(items[1..], x, y).value;
        assert items[i + 1] == items[1..][i];
      } else {
        assert forall i :: 0 < i < |items| ==> items[i] == items[1..][i - 1];
      }
    }
  }

  /** The item as it is on the screen. */
  function OnScreen(s: Snapshot, item: Item): Rect {
    Rect(s.bounds.left + item.outer.left, s.bounds.top + item.outer.top,
         s.bounds.left + item.outer.right, s.bounds.top + item.outer.bottom)
  }

  /** A point of the screen hits an item exactly when it lies in it, and then that item only. */
  lemma HitTestIsExact(
      o: Options, area: Rect, dpi: nat, count: nat, selected: nat, nameHeight: nat, x: int, y: int, index: nat)
    requires area.IsValid() && IsI32(x) && IsI32(y) && Calculate(o, area, dpi, count, selected, nameHeight).Ok?
    ensures var s := Calculate(o, area, dpi, count, selected, nameHeight).value;
      HitTest(s, x, y) == Some(index) <==>
        exists i :: 0 <= i < |s.items| && s.items[i].index == index && OnScreen(s, s.items[i]).Contains(x, y)
  {
    var s := Calculate(o, area, dpi, count, selected, nameHeight).value;
    LayoutIsWellPlaced(o, area, dpi, count, selected, nameHeight);
    HitTestOfPlaced(s, area, x, y, index);
  }

  lemma HitTestOfPlaced(s: Snapshot, area: Rect, x: int, y: int, index: nat)
    requires area.IsValid() && IsI32(x) && IsI32(y) && InsideOf(s.bounds, area) && WellPlaced(s)
    ensures HitTest(s, x, y) == Some(index) <==>
      exists i :: 0 <= i < |s.items| && s.items[i].index == index && OnScreen(s, s.items[i]).Contains(x, y)
  {
    var lx, ly := x - s.bounds.left, y - s.bounds.top;
    FirstAtIsThere(s.items, lx, ly);
    assert forall i :: 0 <= i < |s.items| ==>
      (OnScreen(s, s.items[i]).Contains(x, y) <==> s.items[i].outer.Contains(lx, ly));
    if i :| 0 <= i < |s.items| && s.items[i].index == index && OnScreen(s, s.items[i]).Contains(x, y) {
      FirstAtFinds(s.items, lx, ly, i);
    }
  }

  // ---- How large the icons are -------------------------------------------

  /** Icons of the smallest size, in pixels. */
  function SmallestIcon(dpi: nat): int { Px(MIN_ICON_DIP as real, dpi as real / 96.0) }

  predicate AtLeast(icon: Rect, pixels: int) {
    icon.right - icon.left >= pixels && icon.bottom - icon.top >= pixels
  }

  lemma SpanOf(a: real, length: real)
    requires a >= 0.0 && length >= 0.0
    ensures Round(a + length) - Round(a) >= length.Floor
    ensures Round(a + length) - Round(a) >= Round(length) - 1
  {
  }

  lemma PxIsRound(dip: real, length: real, pixels: int, scale: real)
    requires scale > 0.0 && 0.0 <= dip <= length <= pixels as real / scale && 0 <= pixels <= I32_MAX
    ensures Px(dip, scale) == Round(dip * scale)
  {
    TimesMonotone(0.0, dip, scale);
    TimesMonotone(dip, pixels as real / scale, scale);
    assert pixels as real / scale * scale == pixels as real;
    RoundMonotone(0.0, dip * scale);
    RoundMonotone(dip * scale, pixels as real);
    assert (pixels as real + 0.5).Floor == pixels;
  }

  /** The pixels from one point of the panel to another. */
  lemma SpanInPanel(from: real, span: real, length: real, pixels: int, scale: real)
    requires scale > 0.0 && 0.0 <= from && 0.0 <= span && from + span <= length <= pixels as real / scale
    requires 0 <= pixels <= I32_MAX
    ensures Px(from + span, scale) - Px(from, scale) >= (span * scale).Floor
    ensures Px(from + span, scale) - Px(from, scale) >= Round(span * scale) - 1
  {
    PxIsRound(from, length, pixels, scale);
    PxIsRound(from + span, length, pixels, scale);
    assert (from + span) * scale == from * scale + span * scale;
    TimesMonotone(0.0, from, scale);
    TimesMonotone(0.0, span, scale);
    SpanOf(from * scale, span * scale);
  }

  lemma RoundTimesMonotone(a: real, b: real, c: real)
    requires a <= b && c >= 0.0
    ensures Round(a * c) <= Round(b * c) && (a * c).Floor <= (b * c).Floor
  {
    var x, y := a * c, b * c;
    TimesMonotone(a, b, c);
    assert x <= y;
    RoundMonotone(x, y);
  }

  /** From `at`, one icon within a length that fits: no shorter than its own whole pixels, and than its
      rounded size less one. */
  lemma IconSpan(at: real, icon: real, length: real, pixels: int, scale: real, smallest: real, short: int)
    requires scale > 0.0 && 0.0 <= at && 0.0 <= smallest <= icon && at + icon <= length <= pixels as real / scale
    requires 0 <= pixels <= I32_MAX
    requires short <= Round(smallest * scale) - 1 || short <= (smallest * scale).Floor
    ensures Px(at + icon, scale) - Px(at, scale) >= short
  {
    SpanInPanel(at, icon, length, pixels, scale);
    RoundTimesMonotone(smallest, icon, scale);
  }

  lemma IconSpans(f: Fit, w: int, h: int, scale: real, first: nat, k: nat, short: int)
    requires Fits(f, w, h, scale) && k < f.capacity && 0 <= w <= I32_MAX && 0 <= h <= I32_MAX
    requires short <= Round(MIN_ICON_DIP as real * scale) - 1 || short <= (MIN_ICON_DIP as real * scale).Floor
    ensures AtLeast(ItemAt(f, scale, first, k).icon, short)
  {
    var x, y, icon := ItemLeft(f, k) + f.iconPadding, RowTop(f) + f.iconPadding, f.icon as real;
    IconIsInside(f, w, h, scale, k);
    IconSpan(x, icon, f.width, w, scale, MIN_ICON_DIP as real, short);
    IconSpan(y, icon, f.height, h, scale, MIN_ICON_DIP as real, short);
  }

  lemma IconIsInside(f: Fit, w: int, h: int, scale: real, k: nat)
    requires Fits(f, w, h, scale) && k < f.capacity
    ensures 0.0 <= ItemLeft(f, k) + f.iconPadding && ItemLeft(f, k) + f.iconPadding + f.icon as real <= f.width
    ensures 0.0 <= RowTop(f) + f.iconPadding && RowTop(f) + f.iconPadding + f.icon as real <= f.height
  {
    ItemsInRow(f, w, h, scale, k);
    RowIsAboveFooter(f, w, h, scale);
  }

  /** Every icon painted is at least 24 units wide and high, as those come to in pixels, or one pixel less. */
  lemma IconsAreLargeEnough(o: Options, area: Rect, dpi: nat, count: nat, selected: nat, nameHeight: nat, i: nat)
    requires area.IsValid() && Calculate(o, area, dpi, count, selected, nameHeight).Ok?
    requires i < |Calculate(o, area, dpi, count, selected, nameHeight).value.items|
    ensures var s := Calculate(o, area, dpi, count, selected, nameHeight).value;
      && s.iconSize >= SmallestIcon(dpi) && AtLeast(s.items[i].icon, SmallestIcon(dpi) - 1)
      && (dpi % 4 < 2 ==> AtLeast(s.items[i].icon, SmallestIcon(dpi)))
  {
    var scale := dpi as real / 96.0;
    FitPanelFits(o, area.Width(), area.Height(), scale, count, nameHeight);
    var f := FitPanel(o, area.Width(), area.Height(), scale, count, nameHeight).value;
    PlacedIconIsLargeEnough(f, area, dpi, scale, count, selected, nameHeight != 0, i);
  }

  lemma PlacedIconIsLargeEnough(
      f: Fit, area: Rect, dpi: nat, scale: real, count: nat, selected: nat, named: bool, i: nat)
    requires area.IsValid() && 48 <= dpi <= 960 && scale == dpi as real / 96.0 && selected < count
    requires Fits(f, area.Width(), area.Height(), scale) && Place(f, area, scale, count, selected, named).Ok?
    requires area.Width() > 0 && area.Height() > 0
    requires i < |Place(f, area, scale, count, selected, named).value.items|
    ensures var s := Place(f, area, scale, count, selected, named).value;
      && s.iconSize >= SmallestIcon(dpi) && AtLeast(s.items[i].icon, SmallestIcon(dpi) - 1)
      && (dpi % 4 < 2 ==> AtLeast(s.items[i].icon, SmallestIcon(dpi)))
  {
    PlacedIcon(f, area, scale, count, selected, named, i);
    PxMonotone(MIN_ICON_DIP as real, f.icon as real, scale);
    var first := selected / f.capacity * f.capacity;
    SmallestIconIs(dpi);
    IconSpans(f, area.Width(), area.Height(), scale, first, i, SmallestIcon(dpi) - if dpi % 4 < 2 then 0 else 1);
  }

  lemma PlacedIcon(f: Fit, area: Rect, scale: real, count: nat, selected: nat, named: bool, i: nat)
    requires f.capacity > 0 && selected < count && Place(f, area, scale, count, selected, named).Ok?
    requires i < |Place(f, area, scale, count, selected, named).value.items|
    ensures selected / f.capacity * f.capacity >= 0 && i < f.capacity
    ensures Place(f, area, scale, count, selected, named).value.items[i]
         == ItemAt(f, scale, selected / f.capacity * f.capacity, i)
  {
    PageStart(selected, f.capacity);
  }

  /** Twenty-four units are a quarter as many pixels as there are to the inch. */
  lemma SmallestIconIs(dpi: nat)
    requires 48 <= dpi <= 960
    ensures SmallestIcon(dpi) == Round(MIN_ICON_DIP as real * (dpi as real / 96.0)) == dpi / 4 + if dpi % 4 < 2 then 0 else 1
    ensures (MIN_ICON_DIP as real * (dpi as real / 96.0)).Floor == dpi / 4
  {
    var quarter := MIN_ICON_DIP as real * (dpi as real / 96.0);
    assert quarter == (dpi / 4) as real + (dpi % 4) as real / 4.0;
  }

  /** Just this much padding makes an icon of 24 units begin where it loses a pixel. */
  function LosingPadding(dpi: nat): nat { if dpi % 4 == 2 then 24 else 48 }

  const MONITOR := Rect(0, 0, 3840, 2160)

  lemma LongEnough(pixels: int, scale: real)
    requires 0.5 <= scale <= 10.0 && pixels >= 2160
    ensures pixels as real / scale >= 200.0
  {
    var length := pixels as real / scale;
    assert length * scale == pixels as real;
    if length < 200.0 {
      TimesMonotone(length, 200.0, scale);
    }
  }

  lemma OneIconFits(dpi: nat, padding: nat, scale: real)
    requires 48 <= dpi <= 960 && scale == dpi as real / 96.0 && padding <= 48
    ensures var o := Options(0, 0, MIN_ICON_DIP, 0, 0, padding, 0, 0, 0);
      FitPanel(o, MONITOR.Width(), MONITOR.Height(), scale, 1, 0)
      == Ok(FitWith(o, 3840.0 / scale, 2160.0 / scale, 1, MIN_ICON_DIP, 0))
  {
    LongEnough(3840, scale);
    LongEnough(2160, scale);
    var width, height := 3840.0 / scale - 2.0 * padding as real, 2160.0 / scale - 2.0 * padding as real;
    assert width >= 24.0 && height >= 24.0;
    assert (width / 24.0).Floor >= 1;
    assert WidthFit(width, 1, 0.0, 0.0) == width;
    assert Least(Least(width, height), 24.0).Floor == 24;
  }

  lemma OneIconShows(f: Fit, dpi: nat, padding: nat, scale: real)
    requires 48 <= dpi <= 960 && scale == dpi as real / 96.0
    requires f.width == f.height == 24.0 + 2.0 * padding as real
    ensures Px(f.width, scale) > 0 && Px(f.height, scale) > 0
  {
    RoundTimesMonotone(24.0, f.width, scale);
    SmallestIconIs(dpi);
    assert Round(f.width * scale) >= Round(24.0 * scale) == SmallestIcon(dpi) >= 12;
  }

  lemma OneIconStarts(f: Fit, dpi: nat, padding: nat, scale: real)
    requires 48 <= dpi <= 960 && dpi % 4 >= 2 && padding == LosingPadding(dpi) && scale == dpi as real / 96.0
    requires f == Fit(1, MIN_ICON_DIP, 24.0, 0.0, 24.0, 24.0 + 2.0 * padding as real, 24.0 + 2.0 * padding as real,
                      padding as real, 0.0, 0.0)
    ensures ItemLeft(f, 0) == padding as real
    ensures Px(padding as real + 24.0, scale) - Px(padding as real, scale) == dpi / 4
  {
    var whole, quarter := dpi / 4, dpi as real / 4.0;
    assert quarter == whole as real + (dpi % 4) as real / 4.0;
    if dpi % 4 == 2 {
      LosesAPixel(quarter, quarter, whole, whole);
      assert 24.0 * scale == quarter && (24.0 + 24.0) * scale == quarter + quarter;
    } else {
      LosesAPixel(2.0 * quarter, quarter, 2 * whole + 1, whole);
      assert 48.0 * scale == 2.0 * quarter && (48.0 + 24.0) * scale == 2.0 * quarter + quarter;
    }
  }

  lemma OneIconIsPlaced(f: Fit, dpi: nat, padding: nat, scale: real)
    requires 48 <= dpi <= 960 && dpi % 4 >= 2 && padding == LosingPadding(dpi) && scale == dpi as real / 96.0
    requires f == Fit(1, MIN_ICON_DIP, 24.0, 0.0, 24.0, 24.0 + 2.0 * padding as real, 24.0 + 2.0 * padding as real,
                      padding as real, 0.0, 0.0)
    ensures var r := Place(f, MONITOR, scale, 1, 0, false);
      r.Ok? && |r.value.items| == 1 && !AtLeast(r.value.items[0].icon, SmallestIcon(dpi))
  {
    SmallestIconIs(dpi);
    OneIconStarts(f, dpi, padding, scale);
    OneIconShows(f, dpi, padding, scale);
    assert Place(f, MONITOR, scale, 1, 0, false).Ok?;
  }

  /** At every other resolution some layout has an icon that is a pixel short. */
  lemma OneIconIsShort(dpi: nat)
    requires 48 <= dpi <= 960 && dpi % 4 >= 2
    ensures var o := Options(0, 0, MIN_ICON_DIP, 0, 0, LosingPadding(dpi), 0, 0, 0);
      && Calculate(o, MONITOR, dpi, 1, 0, 0).Ok? && |Calculate(o, MONITOR, dpi, 1, 0, 0).value.items| == 1
      && !AtLeast(Calculate(o, MONITOR, dpi, 1, 0, 0).value.items[0].icon, SmallestIcon(dpi))
  {
    var scale, padding := dpi as real / 96.0, LosingPadding(dpi);
    var o := Options(0, 0, MIN_ICON_DIP, 0, 0, padding, 0, 0, 0);
    OneIconFits(dpi, padding, scale);
    var f := FitWith(o, 3840.0 / scale, 2160.0 / scale, 1, MIN_ICON_DIP, 0);
    OneIconIsPlaced(f, dpi, padding, scale);
  }

  /** A length that begins half-way through a pixel. */
  lemma LosesAPixel(from: real, length: real, whole: nat, pixels: nat)
    requires from == whole as real + 0.5 && pixels as real + 0.5 <= length < pixels as real + 1.0
    ensures Round(from) == whole + 1 && Round(from + length) == whole + pixels + 1
  {
  }

  /** So icons reach their size in every layout exactly at the resolutions that 24 units divide into
      whole pixels, or a quarter over. */
  lemma IconsReachTheirSize(dpi: nat)
    requires 48 <= dpi <= 960
    ensures (forall o: Options, area: Rect, count: nat, selected: nat, nameHeight: nat, i: nat ::
              area.IsValid() && Calculate(o, area, dpi, count, selected, nameHeight).Ok?
              && i < |Calculate(o, area, dpi, count, selected, nameHeight).value.items| ==>
                AtLeast(Calculate(o, area, dpi, count, selected, nameHeight).value.items[i].icon, SmallestIcon(dpi)))
            <==> dpi % 4 < 2
  {
    if dpi % 4 < 2 {
      forall o: Options, area: Rect, count: nat, selected: nat, nameHeight: nat, i: nat
        | area.IsValid() && Calculate(o, area, dpi, count, selected, nameHeight).Ok?
          && i < |Calculate(o, area, dpi, count, selected, nameHeight).value.items|
        ensures AtLeast(Calculate(o, area, dpi, count, selected, nameHeight).value.items[i].icon, SmallestIcon(dpi))
      {
        IconsAreLargeEnough(o, area, dpi, count, selected, nameHeight, i);
      }
    } else {
      OneIconIsShort(dpi);
      var o := Options(0, 0, MIN_ICON_DIP, 0, 0, LosingPadding(dpi), 0, 0, 0);
      assert 0 < |Calculate(o, MONITOR, dpi, 1, 0, 0).value.items|;
    }
  }
}
