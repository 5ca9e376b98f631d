/**
 * The window manager as the browser runs it: the `.app-window` elements, whose
 * inline style the handlers rewrite in place, and the two tracking sets, all
 * fields of one object; plus the per-window drag controller that `makeDraggable`
 * closes over. Each handler is proved against the transition of the same name
 * in module Desk, so the laws of DeskLaws hold of every run.
 */
module Desktop {
  import opened Wrappers
  import opened Geometry
  import ZOrder
  import opened Desk
  import opened DeskLaws

  class WindowManager {
    /** The `.app-window` children of `#appWindows`, in document order. */
    var windows: seq<Window>
    var minimizedWindows: set<string>
    var maximizedWindows: set<string>

    function State(): DeskState
      reads this
    {
      DeskState(windows, minimizedWindows, maximizedWindows)
    }

    ghost predicate Valid()
      reads this
    {
      WellFormed(State())
    }

    constructor ()
      ensures Valid() && State() == Empty
    {
      windows := [];
      minimizedWindows := {};
      maximizedWindows := {};
    }

    /** `bringToFront` of the window at position `i`. */
    method BringToFront(i: nat)
      requires i < |windows|
      modifies this
      ensures windows == Raise(old(windows), i)
      ensures minimizedWindows == old(minimizedWindows) && maximizedWindows == old(maximizedWindows)
    {
      var top := ZOrder.TopZ(ZIndices(windows));
      windows := windows[i := windows[i].(z := top + 1)];
    }

    /** Mousedown on a window. */
    method Focus(app: string)
      requires Valid() && Has(windows, app)
      modifies this
      ensures Valid() && State() == Desk.Focus(old(State()), app)
    {
      FocusFrontmost(State(), app);
      BringToFront(Find(windows, app).value);
    }

    /** `restoreWindow`: the bring-to-front of its completion callback runs at once. */
    method RestoreWindow(app: string)
      requires Valid() && Has(windows, app)
      modifies this
      ensures Valid() && State() == Restore(old(State()), app)
    {
      RestoreFrontmost(State(), app);
      minimizedWindows := minimizedWindows - {app};
      BringToFront(Find(windows, app).value);
    }

    /**
     * `openApp`. A newly created window of an app with a title bar comes with
     * its drag controller; no controller is made otherwise.
     */
    method OpenApp(app: string) returns (drag: DragController?)
      requires Valid()
      modifies this
      ensures Valid() && State() == Open(old(State()), app)
      ensures drag != null <==> !Has(old(windows), app) && app in ChromedApps
      ensures drag != null ==> fresh(drag) && drag.app == app && !drag.dragging
    {
      ghost var s0 := State();
      OpenKeepsWellFormed(s0, app);
      var found := Find(windows, app);
      if found.Some? {
        if app in minimizedWindows {
          RestoreWindow(app);
          assert State() == Restore(s0, app);
        } else {
          BringToFront(found.value);
          assert State() == Desk.Focus(s0, app);
        }
        return null;
      }
      var size := DefaultSize(app);
      var geom := Rect(OpenLeft, OpenTop, size.w, size.h);
      var z := ZOrder.TopZ(ZIndices(windows)) + 1;
      var w := Window(app, geom, z, geom, app in ChromedApps);
      assert w == NewWindow(s0.windows, app);
      windows := windows + [w];
      assert State() == s0.(windows := s0.windows + [w]);
      if app in ChromedApps {
        drag := new DragController(app);
      } else {
        drag := null;
      }
    }

    /** Close control: both sets forget the app; the removal of the completion callback runs at once. */
    method Close(app: string)
      requires Valid() && Has(windows, app) && app in ChromedApps
      modifies this
      ensures Valid() && State() == Desk.Close(old(State()), app)
    {
      CloseRemoves(State(), app);
      minimizedWindows := minimizedWindows - {app};
      maximizedWindows := maximizedWindows - {app};
      var i := Find(windows, app).value;
      windows := windows[..i] + windows[i + 1..];
    }

    /** Minimize control. */
    method Minimize(app: string)
      requires Valid() && Has(windows, app) && app in ChromedApps
      modifies this
      ensures Valid() && State() == Desk.Minimize(old(State()), app)
    {
      MinimizeKeepsWellFormed(State(), app);
      minimizedWindows := minimizedWindows + {app};
    }

    /** Maximize control, in a viewport of `vw` x `vh` pixels. */
    method ToggleMaximize(app: string, vw: int, vh: int)
      requires Valid() && Has(windows, app) && app in ChromedApps
      modifies this
      ensures Valid() && State() == Desk.ToggleMaximize(old(State()), app, vw, vh)
    {
      ToggleMaximizeKeepsWellFormed(State(), app, vw, vh);
      var i := Find(windows, app).value;
      var w := windows[i];
      if app in maximizedWindows {
        maximizedWindows := maximizedWindows - {app};
        windows := windows[i := w.(geom := w.original)];
      } else {
        maximizedWindows := maximizedWindows + {app};
        windows := windows[i := w.(geom := Rect(0, TitlebarHeight, vw, vh - DockAllowance))];
      }
    }
  }

  /** The state `makeDraggable` keeps for one window's title bar: `sx, sy, sl, st, dragging`. */
  class DragController {
    const app: string
    var sx: int
    var sy: int
    var sl: int
    var st: int
    var dragging: bool

    constructor (app: string)
      ensures this.app == app && sx == 0 && sy == 0 && sl == 0 && st == 0 && !dragging
    {
      this.app := app;
      sx, sy, sl, st := 0, 0, 0, 0;
      dragging := false;
    }

    function Snapshot(): Grab
      reads this
    {
      Grab(sx, sy, sl, st)
    }

    /**
     * Mousedown on the title bar at (cx, cy) while the window's bounding box
     * starts at (left, top). A press on a window control starts nothing; any
     * other press records the snapshot and brings the window to front.
     */
    method MouseDown(wm: WindowManager, onControl: bool, cx: int, cy: int, left: int, top: int)
      requires wm.Valid() && Has(wm.windows, app)
      modifies this, wm
      ensures wm.Valid()
      ensures onControl ==> Snapshot() == old(Snapshot()) && dragging == old(dragging) && wm.State() == old(wm.State())
      ensures !onControl ==> Snapshot() == Grab(cx, cy, left, top) && dragging
      ensures !onControl ==> wm.State() == Desk.Focus(old(wm.State()), app)
    {
      if onControl {
        return;
      }
      dragging := true;
      sx, sy := cx, cy;
      sl, st := left, top;
      wm.Focus(app);
    }

    /** Mousemove to (cx, cy) in a `vw` x `vh` viewport: moves the window only while dragging. */
    method Move(wm: WindowManager, cx: int, cy: int, vw: int, vh: int)
      requires wm.Valid() && Has(wm.windows, app)
      modifies wm
      ensures wm.Valid()
      ensures dragging ==> wm.State() == Drag(old(wm.State()), app, Snapshot(), cx, cy, vw, vh)
      ensures !dragging ==> wm.State() == old(wm.State())
    {
      if !dragging {
        return;
      }
      DragKeepsWellFormed(wm.State(), app, Snapshot(), cx, cy, vw, vh);
      var i := Find(wm.windows, app).value;
      var w := wm.windows[i];
      var left := ClampLeft(sl + cx - sx, vw);
      var top := ClampTop(st + cy - sy, vh);
      wm.windows := wm.windows[i := w.(geom := w.geom.(left := left, top := top))];
    }

    /** Mouseup: the drag ends. */
    method Stop()
      modifies this
      ensures !dragging && Snapshot() == old(Snapshot())
    {
      dragging := false;
    }
  }
}
