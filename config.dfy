/**
 * Window configuration and its builder (src/config.rs).
 *
 * The builder takes `self` by value in the source, so every setter here is a
 * function from one builder value to the next.
 */
module Configs {
  import opened Wrappers
  import opened Vectors

  type U32 = n: int | 0 <= n <= U32_MAX

  datatype Config = Config(
    title: string,
    resizeable: bool,
    logicalWidth: U32,
    logicalHeight: U32,
    windowWidth: U32,
    windowHeight: U32)

  datatype ConfigBuilder = ConfigBuilder(
    title: Option<string>,
    resizeable: Option<bool>,
    logicalWidth: Option<U32>,
    logicalHeight: Option<U32>,
    windowWidth: Option<U32>,
    windowHeight: Option<U32>)

  const DEFAULT_TITLE: string := "Graphiclity Window"

  /** `Default for Config`: an 800x600 canvas in an 800x600 resizeable window. */
  function Default(): (c: Config)
    ensures c.title == DEFAULT_TITLE && c.resizeable
    ensures c.logicalWidth == 800 && c.logicalHeight == 600
    ensures c.windowWidth == 800 && c.windowHeight == 600
  {
    Config(DEFAULT_TITLE, true, 800, 600, 800, 600)
  }

  /** `Config::builder`: nothing is set yet. */
  function Builder(): (b: ConfigBuilder)
    ensures b.title.None? && b.resizeable.None?
    ensures b.logicalWidth.None? && b.logicalHeight.None?
    ensures b.windowWidth.None? && b.windowHeight.None?
  {
    ConfigBuilder(None, None, None, None, None, None)
  }

  /** `with_title`: the built window carries `title`; no other field of the builder changes. */
  function WithTitle(b: ConfigBuilder, title: string): (r: ConfigBuilder)
    ensures Build(r).title == title
    ensures r.(title := b.title) == b
  {
    b.(title := Some(title))
  }

  /** `set_window_size`: the built window has `size`; no other field of the builder changes. */
  function SetWindowSize(b: ConfigBuilder, size: (U32, U32)): (r: ConfigBuilder)
    ensures (Build(r).windowWidth, Build(r).windowHeight) == size
    ensures r.(windowWidth := b.windowWidth, windowHeight := b.windowHeight) == b
  {
    b.(windowWidth := Some(size.0), windowHeight := Some(size.1))
  }

  /** `set_logical_size`: the built canvas has `size`; no other field of the builder changes. */
  function SetLogicalSize(b: ConfigBuilder, size: (U32, U32)): (r: ConfigBuilder)
    ensures (Build(r).logicalWidth, Build(r).logicalHeight) == size
    ensures r.(logicalWidth := b.logicalWidth, logicalHeight := b.logicalHeight) == b
  {
    b.(logicalWidth := Some(size.0), logicalHeight := Some(size.1))
  }

  /** `set_resizeable`: the built window has the flag; no other field of the builder changes. */
  function SetResizeable(b: ConfigBuilder, resizeable: bool): (r: ConfigBuilder)
    ensures Build(r).resizeable == resizeable
    ensures r.(resizeable := b.resizeable) == b
  {
    b.(resizeable := Some(resizeable))
  }

  /** `ConfigBuilder::build`: each field set on the builder wins over the default. */
  function Build(b: ConfigBuilder): (c: Config)
    ensures b.title.Some? ==> c.title == b.title.value
    ensures b.title.None? ==> c.title == Default().title
    ensures b.resizeable.Some? ==> c.resizeable == b.resizeable.value
    ensures b.resizeable.None? ==> c.resizeable == Default().resizeable
    ensures b.logicalWidth.Some? ==> c.logicalWidth == b.logicalWidth.value
    ensures b.logicalWidth.None? ==> c.logicalWidth == Default().logicalWidth
    ensures b.logicalHeight.Some? ==> c.logicalHeight == b.logicalHeight.value
    ensures b.logicalHeight.None? ==> c.logicalHeight == Default().logicalHeight
    ensures b.windowWidth.Some? ==> c.windowWidth == b.windowWidth.value
    ensures b.windowWidth.None? ==> c.windowWidth == Default().windowWidth
    ensures b.windowHeight.Some? ==> c.windowHeight == b.windowHeight.value
    ensures b.windowHeight.None? ==> c.windowHeight == Default().windowHeight
  {
    Config(
      b.title.UnwrapOr(DEFAULT_TITLE),
      b.resizeable.UnwrapOr(true),
      b.logicalWidth.UnwrapOr(800),
      b.logicalHeight.UnwrapOr(600),
      b.windowWidth.UnwrapOr(800),
      b.windowHeight.UnwrapOr(600))
  }

  /** Building a fresh builder gives the default configuration, field for field. */
  lemma BuildFreshIsDefault()
    ensures Build(Builder()) == Default()
  {
  }

  /** `with_title` and `set_resizeable` touch only their own field; the built value carries it. */
  lemma TitleAndResizeableSetters(b: ConfigBuilder, title: string, resizeable: bool)
    ensures WithTitle(b, title) == b.(title := Some(title))
    ensures Build(WithTitle(b, title)) == Build(b).(title := title)
    ensures SetResizeable(b, resizeable) == b.(resizeable := Some(resizeable))
    ensures Build(SetResizeable(b, resizeable)) == Build(b).(resizeable := resizeable)
  {
  }

  /** The size setters set both dimensions of their pair and nothing else. */
  lemma SizeSetters(b: ConfigBuilder, w: U32, h: U32)
    ensures SetWindowSize(b, (w, h)) == b.(windowWidth := Some(w), windowHeight := Some(h))
    ensures Build(SetWindowSize(b, (w, h))) == Build(b).(windowWidth := w, windowHeight := h)
    ensures SetLogicalSize(b, (w, h)) == b.(logicalWidth := Some(w), logicalHeight := Some(h))
    ensures Build(SetLogicalSize(b, (w, h))) == Build(b).(logicalWidth := w, logicalHeight := h)
  {
  }

  /** A later call to the same setter overrides an earlier one. */
  lemma LaterSetterWins(b: ConfigBuilder, t1: string, t2: string, r1: bool, r2: bool, s1: (U32, U32), s2: (U32, U32))
    ensures WithTitle(WithTitle(b, t1), t2) == WithTitle(b, t2)
    ensures SetResizeable(SetResizeable(b, r1), r2) == SetResizeable(b, r2)
    ensures SetWindowSize(SetWindowSize(b, s1), s2) == SetWindowSize(b, s2)
    ensures SetLogicalSize(SetLogicalSize(b, s1), s2) == SetLogicalSize(b, s2)
  {
  }

  /** Setters of different fields commute, since each touches only its own field. */
  lemma DistinctSettersCommute(b: ConfigBuilder, t: string, r: bool, win: (U32, U32), logical: (U32, U32))
    ensures WithTitle(SetResizeable(b, r), t) == SetResizeable(WithTitle(b, t), r)
    ensures SetWindowSize(SetLogicalSize(b, logical), win) == SetLogicalSize(SetWindowSize(b, win), logical)
    ensures WithTitle(SetWindowSize(b, win), t) == SetWindowSize(WithTitle(b, t), win)
    ensures WithTitle(SetLogicalSize(b, logical), t) == SetLogicalSize(WithTitle(b, t), logical)
    ensures SetResizeable(SetWindowSize(b, win), r) == SetWindowSize(SetResizeable(b, r), win)
    ensures SetResizeable(SetLogicalSize(b, logical), r) == SetLogicalSize(SetResizeable(b, r), logical)
  {
  }
}
