/**
 * Properties of the window manager's transitions: the registry and z-order
 * invariant every handler keeps, and the laws relating several handlers
 * (open twice, open-minimize-open, maximize toggled twice, drag without drift).
 */
module DeskLaws {
  import opened Wrappers
  import opened Geometry
  import ZOrder
  import opened Desk

  /** The window of `app` is strictly above every other window, minimized ones included. */
  ghost predicate Frontmost(ws: seq<Window>, app: string) {
    && Has(ws, app)
    && forall j :: 0 <= j < |ws| && ws[j].app != app ==> ws[j].z < ws[Find(ws, app).value].z
  }

  lemma FindUnique(ws: seq<Window>, app: string, i: nat)
    requires DistinctApps(ws) && i < |ws| && ws[i].app == app
    ensures Find(ws, app) == Some(i)
  {
  }

  /** Above the floor a z-index reads as itself. */
  lemma ReadZIsZ(ws: seq<Window>, j: int)
    requires AboveFloor(ws) && 0 <= j < |ws|
    ensures ZOrder.ReadZ(ws[j].z) == ws[j].z
  {
  }

  /** `bringToFront` keeps z-indices distinct and above the floor, and puts window `i` strictly on top. */
  lemma RaiseZ(ws: seq<Window>, i: nat)
    requires i < |ws| && DistinctZ(ws) && AboveFloor(ws)
    ensures DistinctZ(Raise(ws, i)) && AboveFloor(Raise(ws, i))
    ensures forall j :: 0 <= j < |ws| && j != i ==> Raise(ws, i)[j].z < Raise(ws, i)[i].z
  {
    var r := Raise(ws, i);
    forall j | 0 <= j < |ws| && j != i
      ensures r[j].z < r[i].z
    {
      ReadZIsZ(ws, j);
    }
  }

  /** Window lists with the same z-indices have the same z-order. */
  lemma SameZ(ws: seq<Window>, ws': seq<Window>)
    requires |ws| == |ws'| && DistinctZ(ws) && AboveFloor(ws)
    requires forall i :: 0 <= i < |ws| ==> ws'[i].z == ws[i].z
    ensures DistinctZ(ws') && AboveFloor(ws')
  {
  }

  /** A window list with the same apps and records and a valid z-order, under the same sets, keeps the invariant. */
  lemma SameAppsKeepsRegistry(s: DeskState, ws: seq<Window>)
    requires WellFormed(s) && SameApps(s.windows, ws)
    requires forall i :: 0 <= i < |ws| ==> ws[i].original == s.windows[i].original && ws[i].chrome == s.windows[i].chrome
    requires DistinctZ(ws) && AboveFloor(ws)
    ensures Apps(ws) == Apps(s.windows)
    ensures WellFormed(s.(windows := ws))
  {
    SameAppsSameSet(s.windows, ws);
    assert forall i :: 0 <= i < |ws| ==> RecordOk(s.windows[i]);
  }

  /** `bringToFront` keeps the invariant and puts the window strictly above all others. */
  lemma FocusFrontmost(s: DeskState, app: string)
    requires WellFormed(s) && Has(s.windows, app)
    ensures WellFormed(Focus(s, app))
    ensures Frontmost(Focus(s, app).windows, app)
    ensures Focus(s, app).windows[Find(s.windows, app).value].z > s.windows[Find(s.windows, app).value].z
  {
    var ws := s.windows;
    var i := Find(ws, app).value;
    var r := Focus(s, app).windows;
    assert r == Raise(ws, i);
    RaiseZ(ws, i);
    SameAppsKeepsRegistry(s, r);
    ReadZIsZ(ws, i);
  }

  /** `restoreWindow` keeps the invariant and leaves the window frontmost. */
  lemma RestoreFrontmost(s: DeskState, app: string)
    requires WellFormed(s) && Has(s.windows, app)
    ensures WellFormed(Restore(s, app))
    ensures Frontmost(Restore(s, app).windows, app)
    ensures app !in Restore(s, app).minimized
    ensures app in s.maximized ==> app in Restore(s, app).maximized
  {
    FocusFrontmost(s.(minimized := s.minimized - {app}), app);
  }

  /** `openApp` keeps the invariant (one window per app, distinct z-indices) and leaves the app frontmost. */
  lemma OpenKeepsWellFormed(s: DeskState, app: string)
    requires WellFormed(s)
    ensures WellFormed(Open(s, app))
    ensures Frontmost(Open(s, app).windows, app)
  {
    if Has(s.windows, app) {
      if app in s.minimized {
        RestoreFrontmost(s, app);
      } else {
        FocusFrontmost(s, app);
      }
    } else {
      OpenNewKeepsWellFormed(s, app);
    }
  }

  lemma OpenNewKeepsWellFormed(s: DeskState, app: string)
    requires WellFormed(s) && !Has(s.windows, app)
    ensures WellFormed(Open(s, app))
    ensures Frontmost(Open(s, app).windows, app)
  {
    AppendKeepsWellFormed(s, app);
    assert Open(s, app) == s.(windows := s.windows + [NewWindow(s.windows, app)]);
  }

  /** The new window's z-index `topZ() + 1` is above the floor and above every existing window. */
  lemma NewWindowOnTop(ws: seq<Window>, app: string)
    requires AboveFloor(ws)
    ensures NewWindow(ws, app).z > ZOrder.Floor
    ensures forall j :: 0 <= j < |ws| ==> ws[j].z < NewWindow(ws, app).z
  {
    forall j | 0 <= j < |ws|
      ensures ws[j].z < NewWindow(ws, app).z
    {
      ReadZIsZ(ws, j);
    }
  }

  /** Appending a window of a new app above all others keeps apps and z-indices distinct. */
  lemma AppendKeepsOrder(ws: seq<Window>, w: Window)
    requires DistinctApps(ws) && DistinctZ(ws) && AboveFloor(ws)
    requires forall j :: 0 <= j < |ws| ==> ws[j].app != w.app && ws[j].z < w.z
    requires w.z > ZOrder.Floor
    ensures DistinctApps(ws + [w]) && DistinctZ(ws + [w]) && AboveFloor(ws + [w])
  {
    var r := ws + [w];
    assert forall j :: 0 <= j < |ws| ==> r[j] == ws[j];
  }

  /** Appending a well-formed window of a new app above all others keeps the invariant and puts it on top. */
  lemma AppendWindowKeepsWellFormed(s: DeskState, w: Window)
    requires WellFormed(s) && RecordOk(w) && w.z > ZOrder.Floor
    requires forall j :: 0 <= j < |s.windows| ==> s.windows[j].app != w.app && s.windows[j].z < w.z
    ensures WellFormed(s.(windows := s.windows + [w]))
    ensures Frontmost(s.windows + [w], w.app)
  {
    var ws := s.windows;
    var n := |ws|;
    var r := ws + [w];
    AppendApps(ws, w);
    AppendKeepsOrder(ws, w);
    assert forall j :: 0 <= j < n ==> r[j] == ws[j];
    assert forall j :: 0 <= j <= n ==> RecordOk(r[j]) by {
      assert forall j :: 0 <= j < n ==> RecordOk(ws[j]);
    }
    FindUnique(r, w.app, n);
  }

  /** Appending the new window of an absent app keeps the invariant and puts it on top. */
  lemma AppendKeepsWellFormed(s: DeskState, app: string)
    requires WellFormed(s) && !Has(s.windows, app)
    ensures WellFormed(s.(windows := s.windows + [NewWindow(s.windows, app)]))
    ensures Frontmost(s.windows + [NewWindow(s.windows, app)], app)
  {
    var w := NewWindow(s.windows, app);
    NewWindowOnTop(s.windows, app);
    AppendWindowKeepsWellFormed(s, w);
  }

  /** Opening an app that already has a window only raises it: no window is added and no geometry changes. */
  lemma OpenExistingOnlyRaises(s: DeskState, app: string)
    requires WellFormed(s) && Has(s.windows, app)
    ensures Open(s, app).windows == Raise(s.windows, Find(s.windows, app).value)
    ensures Open(s, app).minimized == s.minimized - {app}
    ensures Open(s, app).maximized == s.maximized
  {
  }

  /**
   * Opening an app with no window appends one at (100, 100) with the table's
   * size (600x400 for an app missing from the table), z-index `topZ() + 1`,
   * and originals equal to that geometry.
   */
  lemma OpenNewWindow(s: DeskState, app: string)
    requires WellFormed(s) && !Has(s.windows, app)
    ensures |Open(s, app).windows| == |s.windows| + 1
    ensures Open(s, app).windows[..|s.windows|] == s.windows
    ensures var w := Open(s, app).windows[|s.windows|];
      && w.app == app
      && w.geom.left == 100 && w.geom.top == 100
      && (app in SizeTable ==> w.geom.width == SizeTable[app].w && w.geom.height == SizeTable[app].h)
      && (app !in SizeTable ==> w.geom.width == 600 && w.geom.height == 400)
      && w.z == TopZ(s.windows) + 1
      && w.original == w.geom
      && w.chrome == (app in ChromedApps)
    ensures Open(s, app).minimized == s.minimized && Open(s, app).maximized == s.maximized
  {
  }

  /** Opening the same app twice: still one window for it, no geometry changed, its z-index went up. */
  lemma OpenTwiceFocusesOnly(s: DeskState, app: string)
    requires WellFormed(s)
    ensures var s1 := Open(s, app); var s2 := Open(s1, app);
      && |s2.windows| == |s1.windows|
      && Apps(s2.windows) == Apps(s1.windows)
      && Find(s2.windows, app) == Find(s1.windows, app)
      && (forall j :: 0 <= j < |s1.windows| ==> s2.windows[j].geom == s1.windows[j].geom)
      && s2.windows[Find(s1.windows, app).value].z > s1.windows[Find(s1.windows, app).value].z
      && s2.minimized == s1.minimized && s2.maximized == s1.maximized
  {
    var s1 := Open(s, app);
    OpenKeepsWellFormed(s, app);
    assert app !in s1.minimized by {
      if !Has(s.windows, app) {
        assert app !in Apps(s.windows);
      }
    }
    var s2 := Open(s1, app);
    assert s2 == Focus(s1, app);
    FocusFrontmost(s1, app);
  }

  /**
   * Open, minimize, open again: the same window comes back (no duplicate,
   * geometry as before), leaves `minimizedWindows` and is frontmost.
   */
  lemma OpenMinimizeOpenRestores(s: DeskState, app: string)
    requires WellFormed(s)
    ensures var s1 := Open(s, app);
      var s2 := Minimize(s1, app);
      var s3 := Open(s2, app);
      && WellFormed(s3)
      && |s3.windows| == |s1.windows|
      && Apps(s3.windows) == Apps(s1.windows)
      && (forall j :: 0 <= j < |s1.windows| ==> s3.windows[j].geom == s1.windows[j].geom)
      && app !in s3.minimized
      && Frontmost(s3.windows, app)
  {
    var s1 := Open(s, app);
    OpenKeepsWellFormed(s, app);
    var s2 := Minimize(s1, app);
    MinimizeKeepsWellFormed(s1, app);
    RestoreFrontmost(s2, app);
  }

  /** Minimize keeps the invariant and never touches `maximizedWindows` or any geometry. */
  lemma MinimizeKeepsWellFormed(s: DeskState, app: string)
    requires WellFormed(s) && Has(s.windows, app)
    ensures WellFormed(Minimize(s, app))
    ensures Minimize(s, app).windows == s.windows
    ensures Minimize(s, app).maximized == s.maximized
    ensures Minimize(s, app).minimized == s.minimized + {app}
  {
    assert s.windows[Find(s.windows, app).value].app == app;
  }

  /** A maximized window that is minimized is in both sets at once; restore then clears only the minimized flag. */
  lemma MinimizedWhileMaximized(s: DeskState, app: string)
    requires WellFormed(s) && Has(s.windows, app) && app in s.maximized
    ensures app in Minimize(s, app).minimized && app in Minimize(s, app).maximized
    ensures app !in Restore(Minimize(s, app), app).minimized
    ensures app in Restore(Minimize(s, app), app).maximized
  {
  }

  /** Removing the window at `i` removes exactly its app, and keeps the other windows in order. */
  lemma RemoveAtApps(ws: seq<Window>, i: nat)
    requires DistinctApps(ws) && i < |ws|
    ensures DistinctApps(RemoveAt(ws, i))
    ensures Apps(RemoveAt(ws, i)) == Apps(ws) - {ws[i].app}
  {
    var r := RemoveAt(ws, i);
    assert forall j :: 0 <= j < |r| ==> r[j] == ws[if j < i then j else j + 1];
    forall a | a in Apps(ws) && a != ws[i].app
      ensures a in Apps(r)
    {
      var k :| 0 <= k < |ws| && ws[k].app == a;
      assert r[if k < i then k else k - 1].app == a;
    }
  }

  /** Close keeps the invariant and removes the app from the registry and from both sets. */
  lemma CloseRemoves(s: DeskState, app: string)
    requires WellFormed(s) && Has(s.windows, app)
    ensures WellFormed(Close(s, app))
    ensures !Has(Close(s, app).windows, app)
    ensures Apps(Close(s, app).windows) == Apps(s.windows) - {app}
    ensures app !in Close(s, app).minimized && app !in Close(s, app).maximized
  {
    var ws := s.windows;
    var i := Find(ws, app).value;
    var r := Close(s, app).windows;
    RemoveAtApps(ws, i);
    assert forall j :: 0 <= j < |r| ==> r[j] == ws[if j < i then j else j + 1];
    assert DistinctZ(r) && AboveFloor(r);
    assert forall j :: 0 <= j < |ws| ==> RecordOk(ws[j]);
    assert forall j :: 0 <= j < |r| ==> RecordOk(r[j]);
  }

  /** The windows of `ws` other than those of `app`, in their order: the reference for close. */
  function Without(ws: seq<Window>, app: string): (r: seq<Window>)
    ensures forall w :: w in r <==> w in ws && w.app != app
    decreases |ws|
  {
    if ws == [] then []
    else
      assert forall w :: w in ws <==> w == ws[0] || w in ws[1..];
      (if ws[0].app == app then [] else [ws[0]]) + Without(ws[1..], app)
  }

  lemma {:induction false} WithoutAbsent(ws: seq<Window>, app: string)
    requires forall j :: 0 <= j < |ws| ==> ws[j].app != app
    ensures Without(ws, app) == ws
    decreases |ws|
  {
    if ws != [] {
      WithoutAbsent(ws[1..], app);
    }
  }

  /** Removing at `i > 0` keeps the head and removes at `i - 1` from the tail. */
  lemma RemoveAtCons(ws: seq<Window>, i: nat)
    requires 0 < i < |ws|
    ensures RemoveAt(ws, i) == [ws[0]] + RemoveAt(ws[1..], i - 1)
  {
    assert ws[..i] == [ws[0]] + ws[1..][..i - 1];
    assert ws[i + 1..] == ws[1..][i..];
  }

  /** With one window per app, removing the window at `i` filters out its app. */
  lemma {:induction false} RemoveAtIsWithout(ws: seq<Window>, i: nat)
    requires DistinctApps(ws) && i < |ws|
    ensures RemoveAt(ws, i) == Without(ws, ws[i].app)
    decreases |ws|
  {
    if i == 0 {
      WithoutAbsent(ws[1..], ws[0].app);
    } else {
      RemoveAtIsWithout(ws[1..], i - 1);
      RemoveAtCons(ws, i);
    }
  }

  /**
   * Close removes only the closed window: the others stay in the document,
   * in the same order, with their geometry, z-index and records unchanged.
   */
  lemma CloseKeepsOthers(s: DeskState, app: string)
    requires WellFormed(s) && Has(s.windows, app)
    ensures Close(s, app).windows == Without(s.windows, app)
    ensures forall w :: w in Close(s, app).windows <==> w in s.windows && w.app != app
  {
    RemoveAtIsWithout(s.windows, Find(s.windows, app).value);
  }

  /** The maximize toggle keeps the invariant. */
  lemma ToggleMaximizeKeepsWellFormed(s: DeskState, app: string, vw: int, vh: int)
    requires WellFormed(s) && Has(s.windows, app)
    ensures WellFormed(ToggleMaximize(s, app, vw, vh))
  {
    var ws := s.windows;
    var r := ToggleMaximize(s, app, vw, vh);
    assert ws[Find(ws, app).value].app == app;
    SameZ(ws, r.windows);
    SameAppsKeepsRegistry(s, r.windows);
  }

  /**
   * Maximize sets (0, 28, vw, vh - 108) and joins the set; un-maximize leaves the
   * set and returns to the geometry recorded at creation. Other windows keep theirs.
   */
  lemma ToggleMaximizeGeometry(s: DeskState, app: string, vw: int, vh: int)
    requires WellFormed(s) && Has(s.windows, app)
    ensures var r := ToggleMaximize(s, app, vw, vh); var i := Find(s.windows, app).value;
      && |r.windows| == |s.windows|
      && (forall j :: 0 <= j < |s.windows| && j != i ==> r.windows[j] == s.windows[j])
      && r.windows[i].z == s.windows[i].z
      && r.minimized == s.minimized
      && (app !in s.maximized ==> r.windows[i].geom == Rect(0, 28, vw, vh - 108) && r.maximized == s.maximized + {app})
      && (app in s.maximized ==> r.windows[i].geom == InitialRect(app) && r.maximized == s.maximized - {app})
  {
    assert RecordOk(s.windows[Find(s.windows, app).value]);
  }

  /**
   * Toggling maximize twice from a non-maximized window gives back the creation
   * geometry, whatever the geometry was before (a dragged window returns to 100, 100).
   */
  lemma ToggleTwiceRestoresCreationGeometry(s: DeskState, app: string, vw: int, vh: int, vw': int, vh': int)
    requires WellFormed(s) && Has(s.windows, app) && app !in s.maximized
    ensures var r := ToggleMaximize(ToggleMaximize(s, app, vw, vh), app, vw', vh');
      var i := Find(s.windows, app).value;
      && |r.windows| == |s.windows|
      && r.windows[i] == s.windows[i].(geom := InitialRect(app))
      && (forall j :: 0 <= j < |s.windows| && j != i ==> r.windows[j] == s.windows[j])
      && r.maximized == s.maximized && r.minimized == s.minimized
  {
    var s1 := ToggleMaximize(s, app, vw, vh);
    var i := Find(s.windows, app).value;
    ToggleMaximizeGeometry(s, app, vw, vh);
    FindSameApps(s.windows, s1.windows, app);
    assert RecordOk(s.windows[i]);
  }

  /** A drag move keeps the invariant. */
  lemma DragKeepsWellFormed(s: DeskState, app: string, g: Grab, cx: int, cy: int, vw: int, vh: int)
    requires WellFormed(s) && Has(s.windows, app)
    ensures WellFormed(Drag(s, app, g, cx, cy, vw, vh))
  {
    var r := Drag(s, app, g, cx, cy, vw, vh);
    SameZ(s.windows, r.windows);
    SameAppsKeepsRegistry(s, r.windows);
  }

  /**
   * A drag move writes the clamped offset from the start snapshot into left and top only,
   * so the window never ends right of vw - 200 or below vh - 100.
   */
  lemma DragPosition(s: DeskState, app: string, g: Grab, cx: int, cy: int, vw: int, vh: int)
    requires Has(s.windows, app)
    ensures var r := Drag(s, app, g, cx, cy, vw, vh); var i := Find(s.windows, app).value;
      && |r.windows| == |s.windows|
      && r.windows[i].geom.left == ClampLeft(g.sl + (cx - g.sx), vw) <= vw - 200
      && r.windows[i].geom.top == ClampTop(g.st + (cy - g.sy), vh) <= vh - 100
      && r.windows[i].geom.width == s.windows[i].geom.width
      && r.windows[i].geom.height == s.windows[i].geom.height
      && r.windows[i].z == s.windows[i].z
      && (forall j :: 0 <= j < |s.windows| && j != i ==> r.windows[j] == s.windows[j])
      && r.minimized == s.minimized && r.maximized == s.maximized
  {
  }

  /**
   * No drift: of several moves in one drag only the last pointer position
   * matters, so ten moves to the same point give the geometry of one.
   */
  lemma DragNoDrift(s: DeskState, app: string, g: Grab, cx: int, cy: int, cx': int, cy': int, vw: int, vh: int)
    requires Has(s.windows, app)
    ensures Drag(Drag(s, app, g, cx, cy, vw, vh), app, g, cx', cy', vw, vh) == Drag(s, app, g, cx', cy', vw, vh)
  {
    FindSameApps(s.windows, Drag(s, app, g, cx, cy, vw, vh).windows, app);
  }
}
