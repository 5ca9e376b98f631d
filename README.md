# macOS-Web window manager, in Dafny

This project models the window manager of the macOS-Web desktop: a browser page with a dock that opens "apps" into floating windows. It also models the small state machines of three of those apps. The window manager keeps these pieces of state:

- the `.app-window` elements, in document order. Each one has the inline `left/top/width/height` and `z-index` the handlers rewrite, and the `dataset.original*` geometry recorded at creation.
- the two tracking sets `minimizedWindows` and `maximizedWindows`.
- the per-window drag state `sx, sy, sl, st, dragging`.

Every animation counts as instantaneous. Where the source defers an effect to an animation's completion callback, the model applies it at once. These effects are restore's bring-to-front and close's removal of the element. The viewport size (`innerWidth`, `innerHeight`) is a parameter.

Modules:

- `Geometry` (geometry.dfy) holds the constants, the default-size table with its 600x400 fallback, and the drag clamp.
- `ZOrder` (zorder.dfy) holds `topZ`. This is the maximum of 1000 and every window's z-index, with an unset or zero z-index read as 1000.
- `Desk` (desk.dfy) holds the window manager's state as a value. It has one transition function per handler: `Open`, `Focus`, `Restore`, `Close`, `Minimize`, `ToggleMaximize` and `Drag`. It also defines `WellFormed`, the invariant of reachable states: one window per app, distinct z-indices above 1000, originals equal to the creation geometry, and both sets inside the registry.
- `DeskLaws` (desk_laws.dfy) holds the laws. Every handler keeps `WellFormed`. A focused, opened or restored window is frontmost. Opening twice only raises the window. Open, minimize, open restores the same window. Toggling maximize twice gives back the creation geometry. A drag does not drift.
- `Desktop` (desktop.dfy) is the imperative form. Class `WindowManager` has the window list and the two sets as fields. Class `DragController` has the closure state of `makeDraggable`. Each method is proved equal to a `Desk` transition: `BringToFront` to `Raise`, `Focus` to `Focus`, `RestoreWindow` to `Restore`, `OpenApp` to `Open`, `Close` to `Close`, `Minimize` to `Minimize`, `ToggleMaximize` to `ToggleMaximize`, and `DragController.Move` to `Drag`. A real press on a title bar runs `DragController.MouseDown` and then `WindowManager.Focus`, because both the bar's listener and the window's own listener fire. A press on a window control is ignored by the bar's listener but still raises the window through the window's listener.
- `Calculator` (calculator.dfy) holds the display edits as functions with lemmas, and the `Calculator` class for the globals `calcOp`, `calcPrev`, `calcReset` and the display text. Arithmetic is a function parameter.
- `Terminal` (terminal.dfy) holds JavaScript `trim`, the command `switch` and the output lines.
- `Dock` (dock.dfy) holds the magnification tiers by distance from the hovered item, and the `updateDock` loop over an array of item poses.
- `Finder` (finder.dfy) holds the folder table, the lookup with its empty fallback, and the sidebar.

Points where the code's behaviour is easy to misread; the model follows the code:

- Un-maximize goes back to the geometry recorded when the window was created. It does not go back to the geometry just before maximizing, and dragging never updates the originals (`ToggleTwiceRestoresCreationGeometry`).
- Minimize leaves `maximizedWindows` alone, so one app can be in both sets. Restore clears only the minimized flag (`MinimizedWhileMaximized`).
- `topZ` reads every window, minimized ones included (`Raise`, `Frontmost`).
- The handlers of close, minimize, maximize, focus and drag are listeners on a window's own elements. So they only ever run for a window that exists, and their members require it. No "absent app" path exists in the code.
- An app without a template (anything other than safari, finder, calculator and terminal) gets a window with no title bar and no controls. So it has no drag controller and can never be closed, minimized or maximized. The control methods require `app in ChromedApps`.

## Model

| member | source | states |
|---|---|---|
| Geometry.ClampLeft | script.js:143-144 | the dragged left is at most vw-200, at least 0 when vw >= 200, the proposal itself when in range, and the bound it crossed otherwise |
| Geometry.ClampTop | script.js:145-146 | the dragged top is at most vh-100, at least 28 when vh >= 128, the proposal itself when in range, and the bound it crossed otherwise |
| ZOrder.TopZ | script.js:115-117 | topZ is at least 1000, at least every window's z-index (unset read as 1000), and equal to 1000 or to one of them |
| ZOrder.ReadZ | script.js:117 | a z-index reads as itself exactly when it is set (non-zero); an unset one reads as the floor, so a read z-index is never 0 |
| Geometry.DefaultSize | script.js:162-167 | every default size is positive and at most 900x700, and the 600x400 fallback is used exactly for apps outside the size table (the geometry itself is stated in DeskLaws.OpenNewWindow) |
| Desk.Find | script.js:156 | the element lookup finds the first window of the app in document order, and finds none exactly when no window has that app |
| Desk.Raise | script.js:119-122 | bringToFront changes only the window's z-index, to at least 1001, strictly above its old value and above every other window's |
| Desk.Focus | script.js:249 | mousedown on a window keeps the registry lookup unchanged |
| Desk.Restore | script.js:196-204 | restore removes the app from minimizedWindows only, keeps maximizedWindows and adds or drops no window |
| Desk.AppendApps | script.js:184 | appending a window adds exactly its app to the set of apps that have a window |
| Desk.NewWindow | script.js:169-181 | the created element belongs to the app, records its geometry as its originals, and gets a z-index above the floor and above every existing window (position and size in DeskLaws.OpenNewWindow) |
| Desk.Reopen | script.js:156-160 | opening an app that has a window keeps the lookup, the window count and maximizedWindows, takes the app out of minimizedWindows and changes only z-indices |
| Desk.AddWindow | script.js:169-184 | appending an element adds exactly its app, one window and nothing to either set, and keeps every earlier window as it was |
| Desk.Open | script.js:155-194 | after openApp the app has a window, the apps are the old ones plus it, a window is added only if it had none, maximizedWindows is unchanged, minimizedWindows loses the app only if it had a window, and no earlier window changes except in z-index |
| Desk.Close | script.js:211-216 | close removes the app from both sets and removes exactly one window (the other windows are kept as they were, in DeskLaws.CloseKeepsOthers) |
| Desk.Minimize | script.js:218-224 | minimize adds exactly the app to minimizedWindows, no other app, and changes neither the window list nor maximizedWindows (the invariant in DeskLaws.MinimizeKeepsWellFormed) |
| Desk.ToggleMaximize | script.js:226-247 | the maximize toggle keeps the registry lookup unchanged |
| Desk.Drag | script.js:141-147 | a drag move keeps the registry lookup unchanged |
| DeskLaws.FocusFrontmost | script.js:119-122 | focusing keeps the invariant (one window per app, distinct z-indices) and makes the window strictly frontmost, with a higher z-index than before |
| DeskLaws.RestoreFrontmost | script.js:196-204 | restore keeps the invariant, leaves the window frontmost and out of minimizedWindows, and keeps a maximized app maximized |
| DeskLaws.OpenKeepsWellFormed | script.js:155-194 | openApp never creates a second window for an app, keeps z-indices distinct, and leaves the app frontmost |
| DeskLaws.OpenNewKeepsWellFormed | script.js:162-184 | appending a new window for an absent app keeps the invariant and puts it on top |
| DeskLaws.AppendKeepsWellFormed | script.js:169-184 | the appended element keeps apps and z-indices distinct and is above every other window |
| DeskLaws.AppendWindowKeepsWellFormed | script.js:184 | appending a window for an absent app with a z-index above every other keeps the invariant and leaves it frontmost |
| DeskLaws.OpenExistingOnlyRaises | script.js:156-160 | opening an app that has a window only raises it (restoring it when minimized): the window list is bringToFront of the old one |
| DeskLaws.OpenNewWindow | script.js:162-181 | a new window is appended at 100,100 with the table size (600x400 for an unknown app), z-index topZ()+1 and originals equal to that geometry |
| DeskLaws.OpenTwiceFocusesOnly | script.js:155-160 | opening an app twice leaves one window for it, changes no geometry and raises its z-index |
| DeskLaws.OpenMinimizeOpenRestores | script.js:155-160 | open, minimize, open brings back the same window with the same geometry, out of minimizedWindows and frontmost |
| DeskLaws.MinimizeKeepsWellFormed | script.js:218-224 | minimize keeps the invariant, adds exactly the app to minimizedWindows and leaves maximizedWindows and every geometry unchanged |
| DeskLaws.MinimizedWhileMaximized | script.js:196-224 | a maximized window that is minimized is in both sets, and restoring it clears only the minimized flag |
| DeskLaws.RemoveAtApps | script.js:215 | removing one element keeps apps distinct and removes exactly its app from the set of apps that have a window |
| DeskLaws.CloseRemoves | script.js:211-216 | close keeps the invariant and removes the app from the registry and from both sets |
| DeskLaws.Without | script.js:215 | the reference for removing an element: the windows of other apps, and only those, in document order |
| DeskLaws.RemoveAtIsWithout | script.js:215 | with one window per app, removing the element at an index is filtering out its app |
| DeskLaws.CloseKeepsOthers | script.js:211-216 | after close the window list is the old one with the app's window filtered out, so every other window keeps its geometry, z-index, records and relative order |
| DeskLaws.ToggleMaximizeKeepsWellFormed | script.js:226-247 | the maximize toggle keeps the invariant |
| DeskLaws.ToggleMaximizeGeometry | script.js:226-247 | maximize joins the set with geometry (0, 28, vw, vh-108); un-maximize leaves it with the creation geometry; nothing else changes |
| DeskLaws.ToggleTwiceRestoresCreationGeometry | script.js:176-181 | toggling maximize twice from a normal window restores the creation geometry and the sets, whatever the geometry was before |
| DeskLaws.DragKeepsWellFormed | script.js:141-147 | a drag move keeps the invariant |
| DeskLaws.DragPosition | script.js:141-147 | a drag move sets left and top to the clamped offset from the start snapshot (so left <= vw-200, top <= vh-100) and changes nothing else |
| DeskLaws.DragNoDrift | script.js:141-147 | of two drag moves only the last pointer position matters, so repeated moves to one point give the geometry of one move |
| Desktop.WindowManager.constructor | script.js:9-10 | the page starts with no windows and empty tracking sets |
| Desktop.WindowManager.BringToFront | script.js:119-122 | the in-place update equals Raise |
| Desktop.WindowManager.Focus | script.js:249 | the window mousedown handler equals Focus and keeps the invariant |
| Desktop.WindowManager.RestoreWindow | script.js:196-204 | restoreWindow equals Restore and keeps the invariant |
| Desktop.WindowManager.OpenApp | script.js:155-194 | openApp equals Open and keeps the invariant; a drag controller is made exactly for a new window with a title bar |
| Desktop.WindowManager.Close | script.js:211-216 | the close handler equals Close and keeps the invariant |
| Desktop.WindowManager.Minimize | script.js:218-224 | the minimize handler equals Minimize and keeps the invariant |
| Desktop.WindowManager.ToggleMaximize | script.js:226-247 | the maximize handler equals ToggleMaximize and keeps the invariant |
| Desktop.DragController.constructor | script.js:128 | the drag state starts at zero and not dragging |
| Desktop.DragController.MouseDown | script.js:130-139 | the title bar's listener: a press on a window control changes nothing here; any other press records pointer and box, starts dragging and brings the window to front |
| Desktop.DragController.Move | script.js:141-147 | a move while dragging equals Drag from the recorded snapshot; otherwise nothing changes |
| Desktop.DragController.Stop | script.js:148-152 | mouseup ends the drag and keeps the snapshot |
| Calculator.WithDigit | script.js:364-365 | the typed digit ends the display; a display of "0" is replaced by it and any other is extended by exactly it (sequences of digits in Calculator.TypedFromZero and Calculator.TypedAppends) |
| Calculator.WithPoint | script.js:370 | the display then contains '.', is the old text or the old text plus '.', and has one '.' if it had none before |
| Calculator.TypedAppends | script.js:364-365 | on a non-empty display other than "0" typing digits appends them |
| Calculator.TypedFromZero | script.js:363-365 | typing digits on "0" shows them without leading zeros, or "0" if all are zeros |
| Calculator.EntryKeepsOnePoint | script.js:361-371 | digit and decimal entry keep at most one '.' in the display |
| Calculator.WithPointIdempotent | script.js:370 | pressing '.' twice is pressing it once |
| Calculator.Negated | script.js:387-390 | the sign toggle changes the display exactly when it is not "0", adding or dropping one character (the inverse law in Calculator.NegatedTwice) |
| Calculator.NegatedTwice | script.js:386-391 | the sign toggle undoes itself exactly on displays other than "-0" and those starting with "--" |
| Calculator.Calculator.constructor | script.js:359 | the calculator starts with display "0", no operator, no previous value, no reset |
| Calculator.Calculator.Attach | script.js:395 | a new calculator window shows "0" while the operator, previous value and reset flag carry over |
| Calculator.Calculator.InputCalcNumber | script.js:361-366 | a pending reset first makes the display "0" and clears the flag; then the digit replaces "0" or is appended |
| Calculator.Calculator.InputDecimal | script.js:367-371 | a pending reset first makes the display "0"; then '.' is appended unless present |
| Calculator.Calculator.Calculate | script.js:377-384 | with no operator or no previous value nothing changes; otherwise the display shows the result, both are cleared and reset is set |
| Calculator.Calculator.SetOperator | script.js:372-376 | a pending operation is finished unless a result is showing; then the display becomes the previous value, the operator is stored and reset is set |
| Calculator.Calculator.ClearCalc | script.js:385 | AC returns to display "0" with nothing pending |
| Calculator.Calculator.ToggleSign | script.js:386-391 | the display is negated by text; the reset flag is ignored and kept |
| Calculator.Calculator.Percentage | script.js:392-393 | the display is replaced by its percentage and nothing else changes |
| Terminal.TrimStart | script.js:404 | removes exactly the leading white space |
| Terminal.TrimEnd | script.js:404 | removes exactly the trailing white space |
| Terminal.Trim | script.js:404 | trim gives the slice of the input between its leading and trailing white space, and it neither starts nor ends with white space |
| Terminal.TrimEmptyIffBlank | script.js:404-405 | a command is dropped exactly when it is all white space |
| Terminal.TrimIdempotent | script.js:404 | trimming twice is trimming once |
| Terminal.Respond | script.js:418-428 | clear and only clear empties the output; date answers the clock; the fixed commands answer their text; `echo X` answers X; anything else answers "zsh: command not found: " and the command |
| Terminal.EchoIsNoOtherCommand | script.js:418-426 | a command starting with `echo ` is none of clear, date or the fixed commands, so the echo branch is reached only for it |
| Terminal.EchoRoundTrip | script.js:426 | `echo X` answers exactly X for every X |
| Terminal.Run | script.js:414-429 | a non-empty command always ends the output with a fresh prompt; clear leaves only that prompt; other commands append the echoed command, the answer and the prompt |
| Terminal.RunKeepsHistory | script.js:414-429 | a command other than clear keeps every earlier line and adds three |
| Terminal.Terminal.constructor | script.js:346-348 | a new terminal shows the login banner and a prompt |
| Terminal.Terminal.Edit | script.js:352 | typing into the input line sets its value and leaves the output alone |
| Terminal.Terminal.KeyPress | script.js:402-431 | non-Enter keys change nothing; Enter clears the input, ignores a blank command and otherwise runs the trimmed command |
| Dock.Tier | script.js:79-91 | the tooltip shows exactly at distance 0, an item is enlarged exactly within distance 2, and beyond that it rests |
| Dock.PoseFor | script.js:79-91 | the tooltip of an item shows exactly when it is the hovered one, and an item is enlarged exactly when it is within two places of the hovered one (per distance in Dock.Tier) |
| Dock.TierMonotone | script.js:79-91 | farther items are never larger nor higher than nearer ones |
| Dock.LeaveKeepsFirstTwoRaised | script.js:71-102 | after mouse-leave (index -1) item 0 stays at 125% and item 1 at 112%, later items rest |
| Dock.Dock.constructor | script.js:11 | the dock starts with no hovered item and every item at rest |
| Dock.Dock.UpdateDock | script.js:71-93 | updateDock records the index and puts every item at the tier of its distance |
| Dock.Dock.MouseMove | script.js:95-100 | the dock is updated only when the hovered item changes |
| Dock.Dock.MouseLeave | script.js:102 | mouse-leave updates the dock with index -1 |
| Finder.Listing | script.js:457-458 | an unknown path lists nothing, a known one its folder |
| Finder.SidebarListsFolders | script.js:283-290 | every sidebar item names a folder of the file table with a non-empty listing |
| Finder.Finder.constructor | script.js:474 | the finder starts on Documents |
| Finder.Finder.Render | script.js:457-464 | render shows the listing of the path |
| Finder.Finder.ClickSidebar | script.js:466-471 | a sidebar click makes that item active and shows its folder |

## Left out

- Splash screen, clock and dropdown menus: timers and class toggling with nothing to prove.
- GSAP tweens: every animation is instantaneous. The scale pulse of `bringToFront`, the `minimized`/`maximized` CSS classes, `display: none/block` and `style.resize` are not modelled. With instant animations the classes and the visibility only mirror set membership. Making close's removal instant also hides a race: in the page, a click on minimize or maximize during the 0.3 s close tween puts the app back into a set after close took it out, and once the element is removed the app stays in that set with no window, so the next `openApp` creates a window that already counts as minimized or maximized. The model's invariant that both sets lie inside the registry holds only because removal is instant.
- Event-listener registration and removal. `Stop` only clears `dragging`, which already makes later moves no-ops.
- `getBoundingClientRect`: `MouseDown` takes the box's left and top as inputs.
- Pixel values are integers. Fractional pointer or box coordinates, and the parsing of `"800px"` strings, are not modelled.
- Desktop.WindowManager.ToggleMaximize: the maximized height is `vh - 108` even for viewports under 108 pixels, where CSS would use 0. The width `100vw` is taken as `vw`.
- Window elements are values in a sequence, not objects. A drag controller outliving its closed window is not modelled: its methods require the window to exist.
- Lookups into object literals (`size`, template, `fs`) treat only the listed keys as present. App ids or paths naming `Object.prototype` members, such as "constructor", are not modelled.
- Calculator arithmetic (`calculate`, `percentage`): JavaScript number parsing and floating point, including the division by zero that shows 0. These are the function parameters `arith` and `percent`.
- Terminal `date` text: the clock is the parameter `now`. Lines are kept as text; their HTML is not interpreted, and scrolling is not modelled.
- HTML templates, iframe content and icons. Of the markup the model keeps only the set of apps with window chrome and the sidebar's `data-path` values.
- The 100 ms delay before `initApp` and the input focus. The app objects' constructors and `Calculator.Attach` stand for the initialisation; they are not tied to `OpenApp`.
- The dock container's entry animation. The tooltips' initial state comes from the stylesheet and is taken as hidden. Items without a tooltip are not modelled.
- Desk.Raise: z-indices are unbounded integers. In a browser CSS `z-index` is a 32-bit integer, so past 2147483647 raises no longer stack by `topZ() + 1`, and past 2^53 JavaScript's `+ 1` no longer changes the number. Beyond those limits (billions of raises) "strictly above every other window" and distinct z-indices no longer describe the page.
- Manual resizing: after un-maximize the code sets `style.resize = 'both'`, so the user can then resize the window by hand. The model has no transition for a hand resize, so window sizes change only through maximize and its toggle.
