/**
 The panel's picture (src/painter/scene.rs, src/painter/sprite.rs, src/render_surface.rs).

 `Compose` repaints only the tiles that changed; `FullRedraw` is the picture one would get by
 painting everything. Drawing a sprite, an outline or a name is a foreign call: it is a
 function, fixed for the scene, of the sprite's key, of the outline's kind, of the name.
 */
module Scene {
  import opened Wrappers
  import opened Layout
  import opened Pixels

  datatype App = App(key: nat, revision: Option<nat>, windows: nat, name: string)

  datatype State = State(apps: seq<App>, index: nat, showBadge: bool, badgeMax: nat, style: nat)

  datatype Pointer = Pointer(hovered: Option<nat>, pressed: Option<nat>)

  /** What a sprite is drawn from. */
  datatype SpriteKey = SpriteKey(
    icon: nat, revision: Option<nat>, windows: nat, showBadge: bool, maximum: nat, style: nat)

  function KeyOf(app: App, state: State): SpriteKey {
    SpriteKey(app.key, app.revision, app.windows, state.showBadge, state.badgeMax, state.style)
  }

  /** 0: neither, 1: hovered, 2: hovered and pressed. */
  function Feedback(app: App, pointer: Pointer): nat {
    if pointer.hovered == Some(app.key) then (if pointer.pressed == Some(app.key) then 2 else 1) else 0
  }

  /** How things look, by column and row of their own rectangle. */
  datatype Art = Art(
    sprite: (SpriteKey, nat, bool) -> ((int, int) -> Pixel),
    outline: (nat, nat, bool) -> ((int, int) -> Pixel),
    name: string -> ((int, int) -> Pixel))

  datatype Canvas = Canvas(width: nat, height: nat, background: (int, int) -> Pixel, art: Art,
                           items: seq<Item>, footer: Option<Rect>, count: nat)

  /** What `Layout.LayoutIsWellPlaced` gives of every layout. */
  ghost predicate WellFormed(c: Canvas) {
    var panel := Rect(0, 0, c.width, c.height);
    && c.width <= I32_MAX && c.height <= I32_MAX
    && (forall i :: 0 <= i < |c.items| ==>
          InsideOf(c.items[i].outer, panel) && IsProper(c.items[i].outer) && c.items[i].index < c.count)
    && (forall i, j :: 0 <= i < j < |c.items| ==> Disjoint(c.items[i].outer, c.items[j].outer))
    && (c.footer.Some? ==>
          InsideOf(c.footer.value, panel) && IsProper(c.footer.value)
          && forall i :: 0 <= i < |c.items| ==> Disjoint(c.items[i].outer, c.footer.value))
  }

  /** Every layout that succeeds can be painted. */
  lemma LayoutsArePaintable(
      o: Options, area: Rect, dpi: nat, count: nat, selected: nat, nameHeight: nat,
      background: (int, int) -> Pixel, art: Art)
    requires area.IsValid() && Calculate(o, area, dpi, count, selected, nameHeight).Ok?
    ensures var s := Calculate(o, area, dpi, count, selected, nameHeight).value;
      var width, height := Panel(s).right, Panel(s).bottom;
      0 <= width && 0 <= height && WellFormed(Canvas(width, height, background, art, s.items, s.footer, count))
  {
    LayoutIsWellPlaced(o, area, dpi, count, selected, nameHeight);
    PagesPartition(o, area, dpi, count, selected, nameHeight);
    var s := Calculate(o, area, dpi, count, selected, nameHeight).value;
    forall i | 0 <= i < |s.items|
      ensures s.items[i].index < count
    {
      assert exists j :: 0 <= j < |s.items| && s.items[j].index == s.items[i].index;
    }
    assert InsideOf(s.items[0].outer, Panel(s)) && IsProper(s.items[0].outer);
  }

  /** `compose` and then, for feedback, the outline, over what is there. */
  function Tile(c: Canvas, i: nat, key: SpriteKey, selected: bool, feedback: nat, under: Pixel, x: int, y: int): Pixel
    requires i < |c.items|
  {
    var dx, dy := x - c.items[i].outer.left, y - c.items[i].outer.top;
    var drawn := Over(under, c.art.sprite(key, i, selected)(dx, dy));
    if feedback == 0 then drawn else Over(drawn, c.art.outline(i, feedback, selected)(dx, dy))
  }

  predicate Drawable(c: Canvas, state: State) {
    |state.apps| == c.count && state.index < c.count && forall i :: 0 <= i < |c.items| ==> c.items[i].index < c.count
  }

  /** The background with the first `k` tiles painted over it, one after another. */
  function Tiles(c: Canvas, state: State, pointer: Pointer, k: nat, x: int, y: int): Pixel
    requires k <= |c.items| && Drawable(c, state)
  {
    if k == 0 then c.background(x, y)
    else
      var under := Tiles(c, state, pointer, k - 1, x, y);
      var item := c.items[k - 1];
      var app := state.apps[item.index];
      if item.outer.Contains(x, y)
      then Tile(c, k - 1, KeyOf(app, state), item.index == state.index, Feedback(app, pointer), under, x, y)
      else under
  }

  function NameOver(c: Canvas, name: string, under: Pixel, x: int, y: int): Pixel
    requires c.footer.Some?
  {
    Over(under, c.art.name(name)(x - c.footer.value.left, y - c.footer.value.top))
  }

  /** The whole picture, painted from nothing: background, every tile, then the footer. */
  function FullRedraw(c: Canvas, state: State, pointer: Pointer, x: int, y: int): Pixel
    requires Drawable(c, state)
  {
    var tiles := Tiles(c, state, pointer, |c.items|, x, y);
    if c.footer.Some? && c.footer.value.Contains(x, y)
    then NameOver(c, state.apps[state.index].name, tiles, x, y) else tiles
  }

  lemma {:induction false} TilesElsewhere(c: Canvas, state: State, pointer: Pointer, k: nat, x: int, y: int)
    requires k <= |c.items| && Drawable(c, state)
    requires forall i :: 0 <= i < k ==> !c.items[i].outer.Contains(x, y)
    ensures Tiles(c, state, pointer, k, x, y) == c.background(x, y)
  {
    if k > 0 {
      TilesElsewhere(c, state, pointer, k - 1, x, y);
    }
  }

  /** In a tile, the picture is that tile over the background: the others do not reach it. */
  lemma {:induction false} TilesWithin(c: Canvas, state: State, pointer: Pointer, k: nat, i: nat, x: int, y: int)
    requires WellFormed(c) && i < k <= |c.items| && Drawable(c, state) && c.items[i].outer.Contains(x, y)
    ensures var app := state.apps[c.items[i].index];
      Tiles(c, state, pointer, k, x, y)
      == Tile(c, i, KeyOf(app, state), c.items[i].index == state.index, Feedback(app, pointer), c.background(x, y), x, y)
  {
    if k == i + 1 {
      forall j | 0 <= j < i
        ensures !c.items[j].outer.Contains(x, y)
      {
        assert Disjoint(c.items[j].outer, c.items[i].outer);
      }
      TilesElsewhere(c, state, pointer, i, x, y);
    } else {
      TilesWithin(c, state, pointer, k - 1, i, x, y);
      assert Disjoint(c.items[i].outer, c.items[k - 1].outer);
    }
  }

  /** How many of the first `k` sprites are not the ones the state calls for. */
  function Outdated(c: Canvas, sprites: seq<SpriteKey>, state: State, k: nat): nat
    requires k <= |c.items| == |sprites| && Drawable(c, state)
  {
    if k == 0 then 0
    else Outdated(c, sprites, state, k - 1)
         + if sprites[k - 1] == KeyOf(state.apps[c.items[k - 1].index], state) then 0 else 1
  }

  datatype Failure = SpriteFailed | NameFailed

  /** Which foreign calls fail. */
  datatype Faults = Faults(sprite: nat -> bool, name: bool)

  /** The sprite of tile `i` must be made and cannot be. */
  predicate Fails(c: Canvas, sprites: seq<SpriteKey>, state: State, faults: Faults, i: nat)
    requires i < |c.items| == |sprites| && Drawable(c, state)
  {
    sprites[i] != KeyOf(state.apps[c.items[i].index], state) && faults.sprite(i)
  }

  class Scene {
    const canvas: Canvas
    const surface: array2<Pixel>
    var sprites: seq<SpriteKey>
    var selected: Option<nat>  // `None` for the code's `usize::MAX`: nothing drawn yet
    var feedback: seq<nat>
    var name: Option<string>

    ghost predicate Valid()
      reads this
    {
      && WellFormed(canvas) && surface.Length0 == canvas.height && surface.Length1 == canvas.width
      && |sprites| == |feedback| == |canvas.items|
    }

    predicate OnSurface(x: int, y: int) {
      Inside(canvas.width, canvas.height, x, y)
    }

    /** Tile `i` shows its sprite with its feedback. */
    ghost predicate Shows(i: nat, isSelected: bool)
      requires Valid() && i < |canvas.items|
      reads this, surface
    {
      forall x, y :: OnSurface(x, y) && canvas.items[i].outer.Contains(x, y) ==>
        surface[y, x] == Tile(canvas, i, sprites[i], isSelected, feedback[i], canvas.background(x, y), x, y)
    }

    ghost predicate FooterShows()
      requires Valid()
      reads this, surface
    {
      canvas.footer.Some? ==>
        forall x, y :: OnSurface(x, y) && canvas.footer.value.Contains(x, y) ==>
          surface[y, x] == if name.Some? then NameOver(canvas, name.value, canvas.background(x, y), x, y)
                           else canvas.background(x, y)
    }

    predicate Bare(x: int, y: int) {
      && (forall i :: 0 <= i < |canvas.items| ==> !canvas.items[i].outer.Contains(x, y))
      && (canvas.footer.Some? ==> !canvas.footer.value.Contains(x, y))
    }

    ghost predicate BackgroundShows()
      requires Valid()
      reads this, surface
    {
      forall x, y :: OnSurface(x, y) && Bare(x, y) ==> surface[y, x] == canvas.background(x, y)
    }

    /** The surface shows what the fields say it shows. */
    ghost predicate Coherent()
      reads this, surface
    {
      && Valid() && FooterShows() && BackgroundShows()
      && (selected.Some? ==> forall i :: 0 <= i < |canvas.items| ==> Shows(i, canvas.items[i].index == selected.value))
    }

    constructor (canvas: Canvas, state: State)
      requires WellFormed(canvas) && Drawable(canvas, state)
      ensures Coherent() && this.canvas == canvas && fresh(surface)
    {
      this.canvas := canvas;
      surface := new Pixel[canvas.height, canvas.width]((y, x) => canvas.background(x, y));
      sprites := seq(|canvas.items|, i requires 0 <= i < |canvas.items| => KeyOf(state.apps[canvas.items[i].index], state));
      feedback := seq(|canvas.items|, _ => 0);
      selected, name := None, None;
    }

    /** `restore`: the background back into a rectangle. */
    method Restore(rect: Rect)
      requires Valid() && InsideOf(rect, Rect(0, 0, canvas.width, canvas.height)) && IsProper(rect)
      modifies surface
      ensures forall x, y :: OnSurface(x, y) ==>
        surface[y, x] == if rect.Contains(x, y) then canvas.background(x, y) else old(surface[y, x])
    {
      var y := rect.top;
      while y < rect.bottom
        invariant rect.top <= y <= rect.bottom
        invariant forall px, py :: OnSurface(px, py) ==>
          surface[py, px] == if rect.Contains(px, py) && py < y then canvas.background(px, py) else old(surface[py, px])
      {
        var x := rect.left;
        while x < rect.right
          invariant rect.left <= x <= rect.right
          invariant forall px, py :: OnSurface(px, py) ==>
            surface[py, px] == if rect.Contains(px, py) && (py < y || (py == y && px < x)) then canvas.background(px, py)
                               else old(surface[py, px])
        {
          surface[y, x] := canvas.background(x, y);
          x := x + 1;
        }
        y := y + 1;
      }
    }

    /** Draws an image over a rectangle of its size. */
    method Draw(rect: Rect, at: (int, int) -> Pixel)
      requires Valid() && InsideOf(rect, Rect(0, 0, canvas.width, canvas.height)) && IsProper(rect)
      modifies surface
      ensures forall x, y :: OnSurface(x, y) ==>
        surface[y, x] == if rect.Contains(x, y) then Over(old(surface[y, x]), at(x - rect.left, y - rect.top))
                         else old(surface[y, x])
    {
      var ok := Pixels.Compose(surface, Image(rect.Width(), rect.Height(), at), rect.left, rect.top);
      assert ok;
    }

    /** Repaints tile `i` from the background up. */
    method PaintTile(i: nat, isSelected: bool, feedback_: nat)
      requires Valid() && i < |canvas.items|
      modifies surface
      ensures forall x, y :: OnSurface(x, y) ==>
        surface[y, x]
        == if canvas.items[i].outer.Contains(x, y)
           then Tile(canvas, i, sprites[i], isSelected, feedback_, canvas.background(x, y), x, y)
           else old(surface[y, x])
    {
      var outer := canvas.items[i].outer;
      Restore(outer);
      Draw(outer, canvas.art.sprite(sprites[i], i, isSelected));
      if feedback_ != 0 {
        Draw(outer, canvas.art.outline(i, feedback_, isSelected));
      }
    }

    /** What painting within tile `i` leaves alone. */
    twostate predicate OthersKept(i: nat)
      requires old(Valid()) && Valid() && i < |canvas.items|
      reads this, surface
    {
      && |old(sprites)| == |sprites| && |old(feedback)| == |feedback|
      && (forall j :: 0 <= j < |canvas.items| && j != i ==> sprites[j] == old(sprites[j]) && feedback[j] == old(feedback[j]))
      && (forall x, y :: OnSurface(x, y) && !canvas.items[i].outer.Contains(x, y) ==>
            surface[y, x] == old(surface[y, x]))
    }

    twostate lemma KeptShows(i: nat)
      requires old(Valid()) && Valid() && i < |canvas.items| && OthersKept(i)
      ensures forall j, b :: 0 <= j < |canvas.items| && j != i && old(Shows(j, b)) ==> Shows(j, b)
    {
      forall j, b | 0 <= j < |canvas.items| && j != i && old(Shows(j, b))
        ensures Shows(j, b)
      {
        assert Disjoint(canvas.items[i].outer, canvas.items[j].outer)
            || Disjoint(canvas.items[j].outer, canvas.items[i].outer);
      }
    }

    twostate lemma KeptRest(i: nat)
      requires old(Valid()) && Valid() && i < |canvas.items| && OthersKept(i) && name == old(name)
      ensures old(FooterShows()) ==> FooterShows()
      ensures old(BackgroundShows()) ==> BackgroundShows()
    {
      if canvas.footer.Some? {
        assert Disjoint(canvas.items[i].outer, canvas.footer.value);
      }
    }

    /** The first `k` tiles are up to date, the others as they were. */
    ghost predicate UpTo(k: nat, state: State, pointer: Pointer)
      requires Valid() && Drawable(canvas, state) && k <= |canvas.items|
      reads this, surface
    {
      && BackgroundShows()
      && (forall i :: 0 <= i < k ==>
            && sprites[i] == KeyOf(state.apps[canvas.items[i].index], state)
            && feedback[i] == Feedback(state.apps[canvas.items[i].index], pointer)
            && Shows(i, canvas.items[i].index == state.index))
      && (selected.Some? ==>
            forall i :: k <= i < |canvas.items| ==> Shows(i, canvas.items[i].index == selected.value))
    }

    /** One round of the loop: the tile is repainted only if something about it may have changed. */
    method UpdateTile(i: nat, state: State, pointer: Pointer, fails: bool) returns (r: Result<bool, Failure>)
      requires Valid() && Drawable(canvas, state) && i < |canvas.items|
      requires selected.Some? ==> Shows(i, canvas.items[i].index == selected.value)
      modifies this`sprites, this`feedback, surface
      ensures Valid() && OthersKept(i)
      ensures r.Ok? ==>
        && sprites[i] == KeyOf(state.apps[canvas.items[i].index], state)
        && feedback[i] == Feedback(state.apps[canvas.items[i].index], pointer)
        && Shows(i, canvas.items[i].index == state.index)
        && (r.value <==> old(sprites[i]) != sprites[i])
      ensures r.Err? <==> fails && old(sprites[i]) != KeyOf(state.apps[canvas.items[i].index], state)
      ensures r.Err? ==> sprites == old(sprites) && feedback == old(feedback)
                         && forall x, y :: OnSurface(x, y) ==> surface[y, x] == old(surface[y, x])
    {
      var item := canvas.items[i];
      var app := state.apps[item.index];
      var feedback_ := Feedback(app, pointer);
      var changed := sprites[i] != KeyOf(app, state);
      if changed {
        if fails {
          return Err(SpriteFailed);
        }
        sprites := sprites[i := KeyOf(app, state)];
      }
      var isSelected := item.index == state.index;
      if changed || selected == Some(item.index) || isSelected || selected.None? || feedback[i] != feedback_ {
        PaintTile(i, isSelected, feedback_);
      }
      feedback := feedback[i := feedback_];
      r := Ok(changed);
    }

    /** The same round, seen from all the tiles. */
    method UpdateNext(i: nat, state: State, pointer: Pointer, fails: bool) returns (r: Result<bool, Failure>)
      requires Valid() && Drawable(canvas, state) && i < |canvas.items| && UpTo(i, state, pointer) && FooterShows()
      modifies this`sprites, this`feedback, surface
      ensures Valid() && FooterShows()
      ensures UpTo(if r.Ok? then i + 1 else i, state, pointer)
      ensures |old(sprites)| == |sprites| && forall j :: i < j < |sprites| ==> sprites[j] == old(sprites[j])
      ensures r.Ok? ==> (r.value <==> old(sprites[i]) != KeyOf(state.apps[canvas.items[i].index], state))
      ensures r.Err? <==> fails && old(sprites[i]) != KeyOf(state.apps[canvas.items[i].index], state)
    {
      r := UpdateTile(i, state, pointer, fails);
      KeptRest(i);
      KeptShows(i);
    }

    ghost predicate FooterIsBlank()
      requires Valid()
      reads this, surface
    {
      canvas.footer.Some?
      && forall x, y :: OnSurface(x, y) && canvas.footer.value.Contains(x, y) ==> surface[y, x] == canvas.background(x, y)
    }

    /** The name leaves some trace in the footer. */
    ghost predicate NameIsVisible(text: string)
      requires Valid() && canvas.footer.Some?
      reads this
    {
      exists x, y :: OnSurface(x, y) && canvas.footer.value.Contains(x, y)
                     && NameOver(canvas, text, canvas.background(x, y), x, y) != canvas.background(x, y)
    }

    /** The tile looks different when it is selected. */
    ghost predicate TellsSelection(i: nat)
      requires Valid() && i < |canvas.items|
      reads this
    {
      exists x, y :: OnSurface(x, y) && canvas.items[i].outer.Contains(x, y)
                     && Tile(canvas, i, sprites[i], true, feedback[i], canvas.background(x, y), x, y)
                     != Tile(canvas, i, sprites[i], false, feedback[i], canvas.background(x, y), x, y)
    }

    lemma ShowsEither(i: nat, b: bool)
      requires Valid() && i < |canvas.items| && Shows(i, b)
      ensures Shows(i, !b) <==> !TellsSelection(i)
    {
    }

    /** A name that failed leaves the fields saying more than the footer shows, if they name a name
        that can be seen. */
    lemma BlankFooterShows()
      requires Valid() && FooterIsBlank()
      ensures FooterShows() <==> name.None? || !NameIsVisible(name.value)
    {
    }

    /** After the first `k` tiles are up to date and the next failed, the fields still say what the surface
        shows unless the selection moved from or to one of those tiles, and it can be seen. */
    lemma HalfDoneIsCoherent(k: nat, state: State, pointer: Pointer)
      requires Valid() && Drawable(canvas, state) && k <= |canvas.items| && UpTo(k, state, pointer) && FooterShows()
      ensures Coherent() <==>
        selected.None?
        || forall j :: 0 <= j < k && (canvas.items[j].index == state.index) != (canvas.items[j].index == selected.value) ==>
             !TellsSelection(j)
    {
      forall j | 0 <= j < k
        ensures selected.Some? ==>
          (Shows(j, canvas.items[j].index == selected.value)
           <==> (canvas.items[j].index == state.index) == (canvas.items[j].index == selected.value) || !TellsSelection(j))
      {
        ShowsEither(j, canvas.items[j].index == state.index);
      }
    }

    /** The footer as background, and then, unless that fails, the name over it. */
    method PaintName(text: string, fails: bool)
      requires Valid() && canvas.footer.Some?
      modifies this`name, surface
      ensures Valid() && name == if fails then old(name) else Some(text)
      ensures if fails then FooterIsBlank() else FooterShows()
      ensures forall x, y :: OnSurface(x, y) && !canvas.footer.value.Contains(x, y) ==> surface[y, x] == old(surface[y, x])
    {
      var footer := canvas.footer.value;
      Restore(footer);
      if !fails {
        Draw(footer, canvas.art.name(text));
        name := Some(text);
      }
    }

    /** The name is repainted only when it changed; a failure leaves the footer blank. */
    method UpdateFooter(state: State, pointer: Pointer, fails: bool) returns (ok: bool)
      requires Valid() && Drawable(canvas, state) && UpTo(|canvas.items|, state, pointer) && FooterShows()
      modifies this`name, surface
      ensures Valid() && UpTo(|canvas.items|, state, pointer)
      ensures ok <==> !(fails && canvas.footer.Some? && old(name) != Some(state.apps[state.index].name))
      ensures ok ==> FooterShows() && (canvas.footer.Some? ==> name == Some(state.apps[state.index].name))
      ensures !ok ==> name == old(name) && FooterIsBlank()
    {
      ok := true;
      if canvas.footer.Some? {
        var text := state.apps[state.index].name;
        if name != Some(text) {
          PaintName(text, fails);
          ok := !fails;
          FooterKeepsTiles();
        }
      }
    }

    twostate lemma FooterKeepsTiles()
      requires old(Valid()) && Valid() && canvas.footer.Some? && sprites == old(sprites) && feedback == old(feedback)
      requires forall x, y :: OnSurface(x, y) && !canvas.footer.value.Contains(x, y) ==> surface[y, x] == old(surface[y, x])
      ensures forall i, b :: 0 <= i < |canvas.items| && old(Shows(i, b)) ==> Shows(i, b)
      ensures old(BackgroundShows()) ==> BackgroundShows()
    {
      forall i, b | 0 <= i < |canvas.items| && old(Shows(i, b))
        ensures Shows(i, b)
      {
        assert Disjoint(canvas.items[i].outer, canvas.footer.value);
      }
    }

    lemma PixelIsRedrawn(state: State, pointer: Pointer, x: int, y: int)
      requires Valid() && Drawable(canvas, state) && UpTo(|canvas.items|, state, pointer) && FooterShows()
      requires canvas.footer.Some? ==> name == Some(state.apps[state.index].name)
      requires OnSurface(x, y)
      ensures surface[y, x] == FullRedraw(canvas, state, pointer, x, y)
    {
      if i :| 0 <= i < |canvas.items| && canvas.items[i].outer.Contains(x, y) {
        TilesWithin(canvas, state, pointer, |canvas.items|, i, x, y);
        assert Shows(i, canvas.items[i].index == state.index);
        if canvas.footer.Some? {
          assert Disjoint(canvas.items[i].outer, canvas.footer.value);
        }
      } else {
        TilesElsewhere(canvas, state, pointer, |canvas.items|, x, y);
      }
    }

    /** A surface whose every part is up to date is the whole picture. */
    lemma SurfaceIsFullRedraw(state: State, pointer: Pointer)
      requires Valid() && Drawable(canvas, state) && UpTo(|canvas.items|, state, pointer) && FooterShows()
      requires canvas.footer.Some? ==> name == Some(state.apps[state.index].name)
      ensures forall x, y :: OnSurface(x, y) ==> surface[y, x] == FullRedraw(canvas, state, pointer, x, y)
    {
      forall x, y | OnSurface(x, y)
        ensures surface[y, x] == FullRedraw(canvas, state, pointer, x, y)
      {
        PixelIsRedrawn(state, pointer, x, y);
      }
    }

    /** The loop over the tiles: how many sprites were made, or a failure after `done` tiles. */
    method UpdateTiles(state: State, pointer: Pointer, faults: Faults) returns (r: Result<nat, Failure>, ghost done: nat)
      requires Coherent() && Drawable(canvas, state)
      modifies this`sprites, this`feedback, surface
      ensures Valid() && FooterShows() && done <= |canvas.items| && UpTo(done, state, pointer)
      ensures |old(sprites)| == |canvas.items|
      ensures r.Ok? ==> done == |canvas.items| && r.value == Outdated(canvas, old(sprites), state, |canvas.items|)
      ensures r.Err? ==> done < |canvas.items| && Fails(canvas, old(sprites), state, faults, done)
      ensures forall j :: 0 <= j < done ==> !Fails(canvas, old(sprites), state, faults, j)
    {
      var rebuilt := 0;
      var i := 0;
      while i < |canvas.items|
        invariant i <= |canvas.items| && Valid() && FooterShows() && UpTo(i, state, pointer)
        invariant |old(sprites)| == |sprites| && forall j :: i <= j < |sprites| ==> sprites[j] == old(sprites[j])
        invariant rebuilt == Outdated(canvas, old(sprites), state, i)
        invariant forall j :: 0 <= j < i ==> !Fails(canvas, old(sprites), state, faults, j)
      {
        var tile := UpdateNext(i, state, pointer, faults.sprite(i));
        if tile.Err? {
          return Err(SpriteFailed), i;
        }
        rebuilt := rebuilt + if tile.value then 1 else 0;
        i := i + 1;
      }
      r, done := Ok(rebuilt), i;
    }

    /** `compose`. After any number of successful calls the surface is the full picture. After a failure,
        with `done` tiles up to date, the contract says exactly when the fields and the surface disagree. */
    method Compose(state: State, pointer: Pointer, faults: Faults) returns (r: Result<nat, Failure>, ghost done: nat)
      requires Coherent() && Drawable(canvas, state)
      modifies this`sprites, this`selected, this`feedback, this`name, surface
      ensures Valid()
      ensures r.Ok? ==> Coherent() && selected == Some(state.index) && UpTo(|canvas.items|, state, pointer)
      ensures r.Ok? ==>
        forall x, y :: OnSurface(x, y) ==> surface[y, x] == FullRedraw(canvas, state, pointer, x, y)
      ensures r.Ok? ==> r.value == Outdated(canvas, old(sprites), state, |canvas.items|)
      ensures r == Err(SpriteFailed) ==>
        selected == old(selected) && done < |canvas.items| && Fails(canvas, old(sprites), state, faults, done)
      ensures r != Err(SpriteFailed) ==> forall i :: 0 <= i < |canvas.items| ==> !Fails(canvas, old(sprites), state, faults, i)
      ensures r == Err(SpriteFailed) ==>
        (Coherent() <==>
          selected.None?
          || forall j :: 0 <= j < done && (canvas.items[j].index == state.index) != (canvas.items[j].index == selected.value) ==>
               !TellsSelection(j))
      ensures r == Err(NameFailed) ==> faults.name && canvas.footer.Some? && name == old(name)
      ensures r == Err(NameFailed) ==> (Coherent() <==> name.None? || !NameIsVisible(name.value))
    {
      var rebuilt;
      rebuilt, done := UpdateTiles(state, pointer, faults);
      if rebuilt.Err? {
        HalfDoneIsCoherent(done, state, pointer);
        return Err(SpriteFailed), done;
      }
      selected := Some(state.index);
      var named := UpdateFooter(state, pointer, faults.name);
      if !named {
        BlankFooterShows();
        return Err(NameFailed), done;
      }
      SurfaceIsFullRedraw(state, pointer);
      r := rebuilt;
    }
  }

  // ---- A scene that has lost track ---------------------------------------

  const INK := Pixel(0, 0, 0, 255)

  /** Two tiles of one pixel each; a selected tile is black, any other clear. */
  const TWO_TILES := Canvas(
    2, 1, (x, y) => CLEAR,
    Art((key, i, selected) => (x, y) => if selected then INK else CLEAR,
        (i, feedback, selected) => (x, y) => CLEAR, name => (x, y) => CLEAR),
    [Item(0, Rect(0, 0, 1, 1), Rect(0, 0, 1, 1)), Item(1, Rect(1, 0, 2, 1), Rect(1, 0, 2, 1))], None, 2)

  function TwoApps(index: nat, revision: nat): State
  {
    State([App(0, None, 1, ""), App(1, Some(revision), 1, "")], index, false, 0, 0)
  }

  lemma NoOtherFailure<T>(r: Result<T, Failure>)
    requires r != Err(SpriteFailed) && r != Err(NameFailed)
    ensures r.Ok?
  {
    match r {
      case Ok(_) =>
      case Err(SpriteFailed) =>
      case Err(NameFailed) =>
    }
  }

  /** A scene that has been painted with the first application selected. */
  method PaintedOnce() returns (scene: Scene)
    ensures scene.canvas == TWO_TILES && scene.Coherent() && scene.selected == Some(0)
    ensures scene.sprites[0] == KeyOf(App(0, None, 1, ""), TwoApps(0, 0))
    ensures scene.sprites[1] == KeyOf(App(1, Some(0), 1, ""), TwoApps(0, 0))
    ensures fresh(scene) && fresh(scene.surface)
  {
    scene := new Scene(TWO_TILES, TwoApps(0, 0));
    var faults := Faults(_ => false, false);
    var r, done := scene.Compose(TwoApps(0, 0), Pointer(None, None), faults);
    NoOtherFailure(r);
    assert TWO_TILES.items[0].index == 0 && TWO_TILES.items[1].index == 1;
  }

  /** The selection moves to the second tile, whose sprite cannot be made: the first tile is drawn
      without selection, while the scene still counts it as selected. */
  method LosesTrack() returns (scene: Scene, r: Result<nat, Failure>)
    ensures r == Err(SpriteFailed) && scene.Valid() && !scene.Coherent()
  {
    scene := PaintedOnce();
    var faults := Faults(i => i == 1, false);
    assert Fails(TWO_TILES, scene.sprites, TwoApps(1, 1), faults, 1);
    assert !Fails(TWO_TILES, scene.sprites, TwoApps(1, 1), faults, 0);
    ghost var done;
    r, done := scene.Compose(TwoApps(1, 1), Pointer(None, None), faults);
    assert done == 1 && TWO_TILES.items[0].index == 0;
    SelectionShows(scene);
  }

  lemma SelectionShows(scene: Scene)
    requires scene.Valid() && scene.canvas == TWO_TILES
    ensures scene.TellsSelection(0)
  {
    assert scene.OnSurface(0, 0) && TWO_TILES.items[0].outer.Contains(0, 0);
    OverEnds(CLEAR, INK);
  }
}
