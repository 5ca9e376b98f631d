/**
 * The window manager's state as a value: the `.app-window` elements in
 * document order and the two tracking sets `minimizedWindows` and
 * `maximizedWindows`, with one transition function per event handler.
 * Every animation is taken as instantaneous, so a completion callback's
 * effect (restore's bring-to-front, close's removal) happens at once.
 */
module Desk {
  import opened Wrappers
  import opened Geometry
  import ZOrder

  /** The apps whose template has a title bar with close, minimize and maximize controls. */
  const ChromedApps: set<string> := {"safari", "finder", "calculator", "terminal"}

  /**
   * One `.app-window` element with id `<app>-window`: its inline geometry,
   * its inline z-index, the `dataset.original*` geometry recorded at creation,
   * and whether its template carries the window chrome.
   */
  datatype Window = Window(app: string, geom: Rect, z: int, original: Rect, chrome: bool)

  datatype DeskState = DeskState(windows: seq<Window>, minimized: set<string>, maximized: set<string>)

  /** The pointer and window positions captured when a drag starts (`sx, sy, sl, st`). */
  datatype Grab = Grab(sx: int, sy: int, sl: int, st: int)

  const Empty := DeskState([], {}, {})

  /** `document.getElementById(app + "-window")`: the first window of `app` in document order. */
  function Find(ws: seq<Window>, app: string): (r: Option<nat>)
    ensures r.Some? ==> r.value < |ws| && ws[r.value].app == app
    ensures r.Some? ==> forall j :: 0 <= j < r.value ==> ws[j].app != app
    ensures r.None? <==> forall j :: 0 <= j < |ws| ==> ws[j].app != app
    decreases |ws|
  {
    if ws == [] then None
    else if ws[0].app == app then Some(0)
    else
      assert forall j :: 1 <= j < |ws| ==> ws[j] == ws[1..][j - 1];
      match Find(ws[1..], app)
      case None => None
      case Some(k) => Some(k + 1)
  }

  /** Find depends on the apps alone, so geometry and z-index updates never move it. */
  lemma {:induction false} FindSameApps(ws: seq<Window>, ws': seq<Window>, app: string)
    requires |ws| == |ws'|
    requires forall i :: 0 <= i < |ws| ==> ws[i].app == ws'[i].app
    ensures Find(ws, app) == Find(ws', app)
    decreases |ws|
  {
    if ws != [] && ws[0].app != app {
      FindSameApps(ws[1..], ws'[1..], app);
    }
  }

  predicate Has(ws: seq<Window>, app: string) {
    Find(ws, app).Some?
  }

  function Apps(ws: seq<Window>): set<string> {
    set i | 0 <= i < |ws| :: ws[i].app
  }

  /** Two window lists with the same apps at the same positions. */
  ghost predicate SameApps(ws: seq<Window>, ws': seq<Window>) {
    |ws| == |ws'| && forall i :: 0 <= i < |ws| ==> ws[i].app == ws'[i].app
  }

  lemma SameAppsSameSet(ws: seq<Window>, ws': seq<Window>)
    requires SameApps(ws, ws')
    ensures Apps(ws) == Apps(ws')
  {
    forall a | a in Apps(ws) ensures a in Apps(ws') {
      var k :| 0 <= k < |ws| && ws[k].app == a;
      assert ws'[k].app == a;
    }
    forall a | a in Apps(ws') ensures a in Apps(ws) {
      var k :| 0 <= k < |ws'| && ws'[k].app == a;
      assert ws[k].app == a;
    }
  }

  /** Appending a window adds its app to the apps and makes it findable. */
  lemma AppendApps(ws: seq<Window>, w: Window)
    ensures Apps(ws + [w]) == Apps(ws) + {w.app}
    ensures Has(ws + [w], w.app)
  {
    var r := ws + [w];
    assert forall j :: 0 <= j < |ws| ==> r[j] == ws[j];
    assert r[|ws|] == w;
    forall a | a in Apps(ws) ensures a in Apps(r) {
      var k :| 0 <= k < |ws| && ws[k].app == a;
      assert r[k].app == a;
    }
  }

  /** The inline z-indices, in document order. */
  function ZIndices(ws: seq<Window>): (zs: seq<int>)
    ensures |zs| == |ws|
    ensures forall i :: 0 <= i < |ws| ==> zs[i] == ws[i].z
  {
    seq(|ws|, i requires 0 <= i < |ws| => ws[i].z)
  }

  function TopZ(ws: seq<Window>): int {
    ZOrder.TopZ(ZIndices(ws))
  }

  /** At most one window per app. */
  ghost predicate DistinctApps(ws: seq<Window>) {
    forall i, j :: 0 <= i < j < |ws| ==> ws[i].app != ws[j].app
  }

  /** No two windows share a z-index. */
  ghost predicate DistinctZ(ws: seq<Window>) {
    forall i, j :: 0 <= i < j < |ws| ==> ws[i].z != ws[j].z
  }

  /** Every z-index was set by `topZ() + 1`, so it is above the floor. */
  ghost predicate AboveFloor(ws: seq<Window>) {
    forall i :: 0 <= i < |ws| ==> ws[i].z > ZOrder.Floor
  }

  /** What every window carries from its creation on. */
  ghost predicate RecordOk(w: Window) {
    && w.original == InitialRect(w.app)
    && w.chrome == (w.app in ChromedApps)
  }

  /** The invariant of every state the handlers can reach. */
  ghost predicate WellFormed(s: DeskState) {
    && DistinctApps(s.windows)
    && DistinctZ(s.windows)
    && AboveFloor(s.windows)
    && (forall i :: 0 <= i < |s.windows| ==> RecordOk(s.windows[i]))
    && s.minimized <= Apps(s.windows)
    && s.maximized <= Apps(s.windows)
  }

  /** `bringToFront`: the window at `i` gets z-index `topZ() + 1`. */
  function Raise(ws: seq<Window>, i: nat): (r: seq<Window>)
    requires i < |ws|
    ensures |r| == |ws|
    ensures r[i] == ws[i].(z := r[i].z)
    ensures forall j :: 0 <= j < |ws| && j != i ==> r[j] == ws[j]
    ensures r[i].z >= ZOrder.Floor + 1
    ensures r[i].z > ZOrder.ReadZ(ws[i].z)
    ensures forall j :: 0 <= j < |ws| && j != i ==> ZOrder.ReadZ(r[j].z) < r[i].z
  {
    ws[i := ws[i].(z := TopZ(ws) + 1)]
  }

  /** Mousedown anywhere on the window: bring it to front. */
  function Focus(s: DeskState, app: string): (r: DeskState)
    requires Has(s.windows, app)
    ensures Find(r.windows, app) == Find(s.windows, app)
    ensures Apps(r.windows) == Apps(s.windows)
    ensures |r.windows| == |s.windows|
    ensures forall j :: 0 <= j < |s.windows| ==> r.windows[j] == s.windows[j].(z := r.windows[j].z)
    ensures r.minimized == s.minimized && r.maximized == s.maximized
  {
    var ws := Raise(s.windows, Find(s.windows, app).value);
    FindSameApps(s.windows, ws, app);
    SameAppsSameSet(s.windows, ws);
    s.(windows := ws)
  }

  /** `restoreWindow`: leave `minimizedWindows`, then (on completion) bring to front. */
  function Restore(s: DeskState, app: string): (r: DeskState)
    requires Has(s.windows, app)
    ensures r.minimized == s.minimized - {app}
    ensures r.maximized == s.maximized
    ensures |r.windows| == |s.windows|
    ensures Find(r.windows, app) == Find(s.windows, app)
    ensures Apps(r.windows) == Apps(s.windows)
  {
    Focus(s.(minimized := s.minimized - {app}), app)
  }

  /** The element `openApp` creates for an app that has no window yet. */
  function NewWindow(ws: seq<Window>, app: string): (w: Window)
    ensures w.app == app && w.geom == w.original
    ensures w.z > ZOrder.Floor
    ensures forall j :: 0 <= j < |ws| ==> ZOrder.ReadZ(ws[j].z) < w.z
  {
    Window(app, InitialRect(app), TopZ(ws) + 1, InitialRect(app), app in ChromedApps)
  }

  /** `openApp` on an app that has a window: restore it if minimized, else bring it to front. */
  function Reopen(s: DeskState, app: string): (r: DeskState)
    requires Has(s.windows, app)
    ensures Find(r.windows, app) == Find(s.windows, app)
    ensures Apps(r.windows) == Apps(s.windows) + {app}
    ensures |r.windows| == |s.windows|
    ensures r.maximized == s.maximized && r.minimized == s.minimized - {app}
    ensures forall j :: 0 <= j < |s.windows| ==> r.windows[j] == s.windows[j].(z := r.windows[j].z)
  {
    assert s.windows[Find(s.windows, app).value].app == app;
    if app in s.minimized then Restore(s, app) else Focus(s, app)
  }

  /** `openApp` on an app without a window: append a new element for it. */
  function AddWindow(s: DeskState, w: Window): (r: DeskState)
    ensures Has(r.windows, w.app)
    ensures Apps(r.windows) == Apps(s.windows) + {w.app}
    ensures |r.windows| == |s.windows| + 1
    ensures r.maximized == s.maximized && r.minimized == s.minimized
    ensures forall j :: 0 <= j < |s.windows| ==> r.windows[j] == s.windows[j]
  {
    AppendApps(s.windows, w);
    s.(windows := s.windows + [w])
  }

  /** `openApp`: restore or focus the existing window, or append a new one. */
  function Open(s: DeskState, app: string): (r: DeskState)
    ensures Has(r.windows, app)
    ensures Apps(r.windows) == Apps(s.windows) + {app}
    ensures |r.windows| == |s.windows| + (if Has(s.windows, app) then 0 else 1)
    ensures r.maximized == s.maximized
    ensures r.minimized == if Has(s.windows, app) then s.minimized - {app} else s.minimized
    ensures forall j :: 0 <= j < |s.windows| ==>
              r.windows[j] == s.windows[j].(z := r.windows[j].z)
  {
    if Has(s.windows, app) then Reopen(s, app) else AddWindow(s, NewWindow(s.windows, app))
  }

  function RemoveAt(ws: seq<Window>, i: nat): (r: seq<Window>)
    requires i < |ws|
    ensures |r| == |ws| - 1
    ensures forall j :: 0 <= j < i ==> r[j] == ws[j]
    ensures forall j :: i <= j < |r| ==> r[j] == ws[j + 1]
  {
    ws[..i] + ws[i + 1..]
  }

  /** Close control: leave both sets and remove the element from the document. */
  function Close(s: DeskState, app: string): (r: DeskState)
    requires Has(s.windows, app)
    ensures r.minimized == s.minimized - {app}
    ensures r.maximized == s.maximized - {app}
    ensures |r.windows| == |s.windows| - 1
  {
    DeskState(RemoveAt(s.windows, Find(s.windows, app).value),
              s.minimized - {app}, s.maximized - {app})
  }

  /** Minimize control: join `minimizedWindows`; nothing else changes (the window stays in the document). */
  function Minimize(s: DeskState, app: string): (r: DeskState)
    requires Has(s.windows, app)
    ensures r.minimized == s.minimized + {app}
    ensures Find(r.windows, app) == Find(s.windows, app)
    ensures r.windows == s.windows && r.maximized == s.maximized
  {
    s.(minimized := s.minimized + {app})
  }

  /**
   * Maximize control: a maximized window leaves the set and goes back to its
   * creation-time originals; any other joins the set and fills the viewport
   * below the menu bar.
   */
  function ToggleMaximize(s: DeskState, app: string, vw: int, vh: int): (r: DeskState)
    requires Has(s.windows, app)
    ensures Find(r.windows, app) == Find(s.windows, app)
  {
    var i := Find(s.windows, app).value;
    var w := s.windows[i];
    var g := if app in s.maximized then w.original else MaximizedRect(vw, vh);
    var ws := s.windows[i := w.(geom := g)];
    FindSameApps(s.windows, ws, app);
    if app in s.maximized then DeskState(ws, s.minimized, s.maximized - {app})
    else DeskState(ws, s.minimized, s.maximized + {app})
  }

  /** Position a drag to pointer (cx, cy) writes, always from the start snapshot `g`. */
  function DragLeft(g: Grab, cx: int, vw: int): int {
    ClampLeft(g.sl + cx - g.sx, vw)
  }

  function DragTop(g: Grab, cy: int, vh: int): int {
    ClampTop(g.st + cy - g.sy, vh)
  }

  /** One `mousemove` of an active drag: only left and top of the dragged window change. */
  function Drag(s: DeskState, app: string, g: Grab, cx: int, cy: int, vw: int, vh: int): (r: DeskState)
    requires Has(s.windows, app)
    ensures Find(r.windows, app) == Find(s.windows, app)
  {
    var i := Find(s.windows, app).value;
    var w := s.windows[i];
    var ws := s.windows[i := w.(geom := w.geom.(left := DragLeft(g, cx, vw), top := DragTop(g, cy, vh)))];
    FindSameApps(s.windows, ws, app);
    s.(windows := ws)
  }
}
