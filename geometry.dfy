/**
 * Window geometry in viewport pixels: the constants of the window manager,
 * the per-app default size table and the drag clamp.
 */
module Geometry {
  /** Height of the menu bar; a dragged window never goes above it. */
  const TitlebarHeight := 28
  /** Part of a window that stays on screen horizontally while dragging. */
  const MinVisibleWidth := 200
  /** Part of a window that stays on screen vertically while dragging. */
  const MinVisibleHeight := 100
  /** Where every new window is placed. */
  const OpenLeft := 100
  const OpenTop := 100
  /** A maximized window is this much shorter than the viewport (menu bar and dock). */
  const DockAllowance := 108

  datatype Size = Size(w: int, h: int)
  datatype Rect = Rect(left: int, top: int, width: int, height: int)

  /** Default sizes of the known apps; any other app id falls back to 600x400. */
  const SizeTable: map<string, Size> :=
    map["finder" := Size(800, 600), "safari" := Size(900, 700),
        "calculator" := Size(360, 500), "terminal" := Size(700, 500)]
  const FallbackSize := Size(600, 400)

  function DefaultSize(app: string): (r: Size)
    ensures 0 < r.w <= 900 && 0 < r.h <= 700
    ensures r == FallbackSize <==> app !in SizeTable
  {
    if app in SizeTable then SizeTable[app] else FallbackSize
  }

  /** The geometry a window of `app` gets when it is created, also recorded as its originals. */
  function InitialRect(app: string): Rect {
    var s := DefaultSize(app);
    Rect(OpenLeft, OpenTop, s.w, s.h)
  }

  /** The geometry a maximized window gets in a `vw` x `vh` viewport. */
  function MaximizedRect(vw: int, vh: int): Rect {
    Rect(0, TitlebarHeight, vw, vh - DockAllowance)
  }

  function Min(a: int, b: int): int { if a <= b then a else b }
  function Max(a: int, b: int): int { if a >= b then a else b }

  /** Horizontal drag clamp: `min(max(0, p), vw - 200)`. */
  function ClampLeft(p: int, vw: int): (l: int)
    ensures l <= vw - MinVisibleWidth
    ensures MinVisibleWidth <= vw ==> 0 <= l
    ensures 0 <= p <= vw - MinVisibleWidth ==> l == p
    ensures p < 0 ==> l == Min(0, vw - MinVisibleWidth)
    ensures p > vw - MinVisibleWidth ==> l == vw - MinVisibleWidth
  {
    Min(Max(0, p), vw - MinVisibleWidth)
  }

  /** Vertical drag clamp: `min(max(28, p), vh - 100)`. */
  function ClampTop(p: int, vh: int): (t: int)
    ensures t <= vh - MinVisibleHeight
    ensures TitlebarHeight + MinVisibleHeight <= vh ==> TitlebarHeight <= t
    ensures TitlebarHeight <= p <= vh - MinVisibleHeight ==> t == p
    ensures p < TitlebarHeight ==> t == Min(TitlebarHeight, vh - MinVisibleHeight)
    ensures p > vh - MinVisibleHeight ==> t == vh - MinVisibleHeight
  {
    Min(Max(TitlebarHeight, p), vh - MinVisibleHeight)
  }
}
