# MousePath in Dafny

MousePath is a WPF overlay that traces the mouse cursor across a transparent
window covering all screens. It draws lines between consecutive cursor
samples and a marker where the cursor stopped. It also snapshots the drawing
to a PNG file, either automatically into a temp folder or to a file the user
chooses. This project models the logic that remains once the toolkit is
abstracted away, and proves its properties:

- **The trail state machine** of `MainView.DrawPoints` (module `Trail`, class
  `Views.MainView`). Its state is the previous point (reset value `(-1,-1)`),
  the marker multiplier and the time of the last drawn line. Each sample may
  request an automatic export, append a marker, and append a line. The
  canvas is a sequence of `Line` / `Marker` records. `Trail.Step` is the pure
  specification of one call. `DrawPoints` updates the view's fields and
  canvas in place and is proved to follow `Step`. When `Step` asks for the
  export, `DrawPoints` calls the view model's `Export` first, so the canvas
  is cleared before anything is drawn, as in DrawPoints.
- **The string-tagged message dispatch** of `RegisterForMessages` (`Views.Route`).
- **The export bookkeeping** of `MainViewModel` (class
  `ViewModels.MainViewModel`). It tracks the current cached image, the "was
  exported by the user" flag and the list of files still to delete. It moves
  the grid's image onto the canvas and back to index 0, and it handles the
  best-effort deletions of `TryToDeleteFiles` and `Cleanup`. The file system
  (`Files.FileSystem`) is a set of existing files, a set of directories and a
  set of files whose deletion raises an `IOException`. Writing the PNG is an
  opaque step after which the file exists.
- **The window geometry**: the left fold of `System.Drawing.Rectangle.Union`
  over the screens (`Screens`), and the window size and position that
  `ResizeCommandExecuted` sets.

Inputs that come from the clock, the OS or the user are parameters:
- `secondsSinceStop` is the whole seconds since `_lastStopped`;
- `now` is the clock reading `DrawPoints` stores;
- `ticks` is `DateTime.Now.Ticks` when an export is named;
- the screens' bounds;
- the file name the save dialog returns, or none when it is cancelled;
- the set of locked files.

Paths are kept in canonical form, with every `\` written as `/`, because
Windows treats both as separators. `new Uri(p).ToString()` is modelled as
`"file:///"` followed by that form. This is why the cached image path,
which `Export` recovers by removing `"file:///"`, names the same file that
was written (`Files.LocalPathOfUri`). In `MainViewModel`, an empty
`currentCachedImage` stands for C#'s `null`, because the code only tests
it with `string.IsNullOrEmpty`.

Two behaviours of the code may surprise a reader:

- **Line count.** `n` in-window samples of a moving cursor after a reset
  draw `n` lines, not `n - 1`. The first sample draws a zero-length line
  from itself to itself (`Trail.TrailAfterReset`).
- **Equal ticks.** Two automatic exports with the same tick value write the
  same file. The second export then queues that file and deletes it right
  after writing it (`ViewModels.MainViewModel.ExportTwice`).

## Model

| member | source | states |
|---|---|---|
| Text.ToLowerInvariant | MousePathWpf/Views/MainView.xaml.cs:57 | the lowered tag has the same length and each character is the lowered character of the tag |
| Text.LoweredEqualsUpToCase | MousePathWpf/Views/MainView.xaml.cs:57-59 | comparing the lowered text with a tag that has no capitals holds exactly when the text spells the tag with any letters in capitals |
| Text.ReplaceWithoutOccurrence | MousePathWpf/ViewModels/MainViewModel.cs:177 | `Replace` leaves a string with no occurrence of the pattern unchanged |
| Text.ReplaceLeading | MousePathWpf/ViewModels/MainViewModel.cs:177 | a leading occurrence is replaced and the scan resumes right after it |
| Text.Replace | MousePathWpf/ViewModels/MainViewModel.cs:177 | String.Replace as a left-to-right scan replacing non-overlapping occurrences; removing a pattern never makes the string longer |
| Text.NatToStringRoundTrip | MousePathWpf/ViewModels/MainViewModel.cs:180 | reading back the decimal digits of the ticks gives the ticks |
| Text.NatToStringInjective | MousePathWpf/ViewModels/MainViewModel.cs:180 | different tick values print differently |
| Text.NatToString | MousePathWpf/ViewModels/MainViewModel.cs:180 | Int64.ToString of the ticks: a non-empty string of decimal digits |
| Files.LocalPathOfUri | MousePathWpf/ViewModels/MainViewModel.cs:177-201 | removing every "file:///" from the stored Uri string gives back the written path, for a path without "file:///" in it |
| Files.TempSnapshots | MousePathWpf/ViewModels/MainViewModel.cs:131 | definition: the files `Directory.GetFiles(folder, "mousePath.temp.*")` returns, the existing files directly in the folder whose name matches; ExistingSnapshotIsListed and Cleanup state its use |
| Files.ExistingSnapshotIsListed | MousePathWpf/ViewModels/MainViewModel.cs:131-135 | an automatic snapshot that still exists is listed by the cleanup, and every listed path is the canonical path that deleting it removes |
| Files.IsTempSnapshotIn | MousePathWpf/ViewModels/MainViewModel.cs:131 | definition: the path starts with the folder, the rest has no separator and starts with mousePath.temp. |
| Files.TempFileName | MousePathWpf/ViewModels/MainViewModel.cs:180 | definition: `<folder>mousePath.temp.<ticks>.png`; its properties are TempFileNameIsSnapshot and TempFileNamesDiffer |
| Files.UriString | MousePathWpf/ViewModels/MainViewModel.cs:183 | definition: `new Uri(p).ToString()` as "file:///" followed by the canonical path; LocalPathOfUri inverts it |
| Files.TempFileNameIsSnapshot | MousePathWpf/ViewModels/MainViewModel.cs:180 | every automatic snapshot name `<folder>mousePath.temp.<ticks>.png` is a file that the cleanup pattern lists |
| Files.SnapshotIsCanonical | MousePathWpf/ViewModels/MainViewModel.cs:131-135 | a listed file path is the path deleting it removes |
| Files.TempFileNamesDiffer | MousePathWpf/ViewModels/MainViewModel.cs:180 | snapshots taken at different ticks are different files |
| Files.FileSystem.Delete | MousePathWpf/ViewModels/MainViewModel.cs:221-229 | deleting removes the file; a missing file is a no-op; a locked file raises an IOException and stays |
| Files.FileSystem.WritePng | MousePathWpf/Utilities/Export.cs:47-55 | after the write the file exists and no other file changes |
| Files.FileSystem.CreateDirectory | MousePathWpf/ViewModels/MainViewModel.cs:43-45 | the directory exists afterwards and the files are untouched |
| Files.FileSystem.Exists | MousePathWpf/ViewModels/MainViewModel.cs:221 | definition: File.Exists, the canonical path is among the files |
| Files.FileSystem.DirectoryExists | MousePathWpf/ViewModels/MainViewModel.cs:129 | definition: Directory.Exists, the canonical path is among the directories |
| Controls.FirstIndex | MousePathWpf/ViewModels/MainViewModel.cs:185-189 | the index found holds a child of the kind and no earlier child is of that kind; none is found only when no child is of that kind |
| Controls.FoundCanvas | MousePathWpf/ViewModels/MainViewModel.cs:185-186 | a canvas is found exactly when a Canvas child exists, and it is the first Canvas child, as FirstOrDefault picks |
| Controls.RemoveAt | MousePathWpf/ViewModels/MainViewModel.cs:196 | removing the image drops exactly that one element; the children before it stay in place and those after it move up by one, in order |
| Controls.MoveImageToFront | MousePathWpf/ViewModels/MainViewModel.cs:194-204 | definition: the first Image is removed and inserted again at index 0; its properties are the three MoveImageToFront lemmas |
| Controls.MoveImageToFrontPermutes | MousePathWpf/ViewModels/MainViewModel.cs:194-204 | taking the image out and inserting it back keeps the same children (a permutation) |
| Controls.MoveImageToFrontPlacesImage | MousePathWpf/ViewModels/MainViewModel.cs:203-204 | afterwards the image is at index 0; without an image the children are untouched |
| Controls.MoveImageToFrontKeepsCanvas | MousePathWpf/ViewModels/MainViewModel.cs:185-204 | the grid's first canvas is the same after the move |
| Screens.UnionIsLeastEnclosing | MousePathWpf/ViewModels/MainViewModel.cs:168 | Rectangle.Union encloses both rectangles and is enclosed by every rectangle that encloses both |
| Screens.Union | MousePathWpf/ViewModels/MainViewModel.cs:168 | definition: Rectangle.Union, from the smaller left and top edges to the larger right and bottom edges; UnionIsLeastEnclosing states what it is |
| Screens.UnionOf | MousePathWpf/ViewModels/MainViewModel.cs:161-170 | definition: the left fold of Union starting from the first screen; UnionOfEnclosesAll and UnionOfIsLeast state what it is |
| Screens.UnionOfEnclosesAll | MousePathWpf/ViewModels/MainViewModel.cs:161-170 | the folded union contains every screen's bounds |
| Screens.UnionOfIsLeast | MousePathWpf/ViewModels/MainViewModel.cs:161-170 | a rectangle containing every screen contains the folded union, so the union is the smallest |
| ViewModels.GetUnionOfScreens | MousePathWpf/ViewModels/MainViewModel.cs:161-171 | needs at least one screen; returns the left fold of Union, which is the single screen's bounds when there is one screen and contains every screen |
| ViewModels.TempPictureFolder | MousePathWpf/ViewModels/MainViewModel.cs:27 | definition: the pictures folder followed by `\MousePath\` |
| ViewModels.ExportTarget | MousePathWpf/ViewModels/MainViewModel.cs:179-180 | definition: the chosen file name, or the automatic snapshot name when none is given |
| ViewModels.PreviousFile | MousePathWpf/ViewModels/MainViewModel.cs:177 | definition: the cached Uri string with every "file:///" removed, or "" (null) when nothing is cached; LocalPathOfUri shows it names the written file |
| ViewModels.QueuesPrevious | MousePathWpf/ViewModels/MainViewModel.cs:206-207 | definition: the condition under which Export queues the previous file |
| ViewModels.ResizedWindow | MousePathWpf/ViewModels/MainViewModel.cs:155-158 | definition: the window ResizeCommandExecuted leaves, the union's size at (0, 0) |
| ViewModels.ResizeCommandExecuted | MousePathWpf/ViewModels/MainViewModel.cs:147-159 | whatever the nudges did, the window ends with the union's height and width at Top = Left = 0 |
| ViewModels.ResizeMissesScreenLeftOfPrimary | MousePathWpf/ViewModels/MainViewModel.cs:155-158 | with a screen left of the primary one, the resized window does not contain that screen |
| ViewModels.ResizeToUnionOfScreens | MousePathWpf/ViewModels/MainViewModel.cs:147-159 | the corrected geometry: the window is the union rectangle and contains every screen |
| ViewModels.Reset | MousePathWpf/ViewModels/MainViewModel.cs:96 | the reset command leaves the canvas without children |
| ViewModels.MainViewModel.constructor | MousePathWpf/ViewModels/MainViewModel.cs:38-48 | empty deletion list, no cached image, flag cleared; the temp folder under the pictures folder exists afterwards |
| ViewModels.MainViewModel.TryToDeleteFiles | MousePathWpf/ViewModels/MainViewModel.cs:214-231 | every queued file that exists and is not locked is deleted; the queue is not shortened, so each later export retries every entry |
| ViewModels.MainViewModel.Export | MousePathWpf/ViewModels/MainViewModel.cs:175-212 | no canvas: nothing changes. Otherwise the target is the chosen name or `<tempFolder>mousePath.temp.<ticks>.png`; the cached image is its Uri; the canvas is empty; the image is back at index 0; the previous file is queued iff deletePrevious, it is non-empty and it was not user-exported; the flag becomes !deletePrevious; the files are the old ones plus the target minus the deletable queue; the directories stay |
| ViewModels.LendImage | MousePathWpf/ViewModels/MainViewModel.cs:188-198 | the grid's first image, if any, leaves the grid (exactly that element) and is appended to the canvas; without an image nothing changes |
| ViewModels.ReturnImage | MousePathWpf/ViewModels/MainViewModel.cs:203-204 | the image goes back in at index 0 of the grid |
| ViewModels.RenderSnapshot | MousePathWpf/ViewModels/MainViewModel.cs:194-204 | the canvas is written to the target file and left empty, and the grid's image ends at its front with the other children in order |
| ViewModels.MainViewModel.RecordExport | MousePathWpf/ViewModels/MainViewModel.cs:206-211 | the previous file is queued iff deletePrevious, it is non-empty and the flag was clear; the flag becomes !deletePrevious; every deletable queued file is removed |
| ViewModels.MainViewModel.ExportTwice | MousePathWpf/ViewModels/MainViewModel.cs:175-212 | two automatic exports on a fresh view model queue exactly the first snapshot and delete it unless it is locked; the second stays iff the ticks differ (or the first was locked) |
| ViewModels.MainViewModel.Cleanup | MousePathWpf/ViewModels/MainViewModel.cs:127-145 | when the temp folder exists, exactly the files in it that match mousePath.temp.* and are not locked are deleted; otherwise nothing changes |
| Trail.OutsideResets | MousePathWpf/Views/MainView.xaml.cs:132-137 | a sample outside the window resets the previous point to (-1,-1), draws no line and keeps _lastStopped |
| Trail.InsideIsInclusive | MousePathWpf/Views/MainView.xaml.cs:132-133 | the corners (Left, Top) and (Left + ActualWidth, Top + ActualHeight) are inside, and so is every point on the right edge x = Left + ActualWidth or the bottom edge y = Top + ActualHeight; one pixel further is outside |
| Trail.Inside | MousePathWpf/Views/MainView.xaml.cs:132-133 | definition: the bounds test, inclusive on all four edges; InsideIsInclusive states it |
| Trail.StopPhase | MousePathWpf/Views/MainView.xaml.cs:102-130 | the stop handling keeps the previous point and _lastStopped, requests the export iff secondsSinceStop > 2, and draws at most one shape, only when the cursor moves again: the marker centred on the previous point with the old multiplier, which is then reset to 0 |
| Trail.MovePhase | MousePathWpf/Views/MainView.xaml.cs:132-161 | the bounds test and the line keep the multiplier and draw no marker; outside the window the previous point is reset and nothing drawn; at most one line, ending at the sample, which becomes the previous point with _lastStopped = now; without a line _lastStopped stays |
| Trail.Step | MousePathWpf/Views/MainView.xaml.cs:98-161 | one DrawPoints call: the stop phase then the move phase; the export is requested iff secondsSinceStop > 2 and at most two shapes are drawn |
| Trail.StepDrawsMarkerBeforeLine | MousePathWpf/Views/MainView.xaml.cs:118-158 | when a call draws two shapes, the marker comes first and the line last |
| Trail.After | MousePathWpf/Views/MainView.xaml.cs:106-158 | the canvas after a call: an export leaves only the new shapes; otherwise the canvas grows by exactly the number of new shapes (AfterKeepsCanvas states that the old shapes stay in front of them) |
| Trail.AfterKeepsCanvas | MousePathWpf/Views/MainView.xaml.cs:118-158 | without an export the old shapes stay in place and the new ones follow them |
| Trail.FirstSampleAfterReset | MousePathWpf/Views/MainView.xaml.cs:139-161 | the first in-window sample after a reset draws a zero-length line at itself, becomes the previous point and resets _lastStopped |
| Trail.InsideDrawsSegment | MousePathWpf/Views/MainView.xaml.cs:144-161 | an in-window sample after a non-negative previous point appends exactly one line from it to the sample (both ends offset by Left, Top), becomes the previous point and resets _lastStopped |
| Trail.MixedSignPreviousBlocksLines | MousePathWpf/Views/MainView.xaml.cs:139-146 | a previous point with exactly one negative coordinate draws no line and stays, for every in-window sample |
| Trail.StoppedSample | MousePathWpf/Views/MainView.xaml.cs:102-109 | with secondsSinceStop > 0 the multiplier becomes secondsSinceStop, no marker is drawn, and an export is requested iff secondsSinceStop > 2 |
| Trail.MovingSample | MousePathWpf/Views/MainView.xaml.cs:110-129 | with secondsSinceStop <= 0 no export is requested; a positive multiplier draws exactly one marker, centred on the previous point before the sample, and resets to 0; otherwise no marker |
| Trail.MarkerBeforeBoundsTest | MousePathWpf/Views/MainView.xaml.cs:103-137 | a pending marker is drawn even when the sample is outside the window |
| Trail.StepKeepsWellFormed | MousePathWpf/Views/MainView.xaml.cs:132-160 | with Left and Top not negative, the previous point stays (-1,-1) or non-negative |
| Trail.NoSegmentAcrossExit | MousePathWpf/Views/MainView.xaml.cs:132-158 | a sample outside the window followed by one inside never draws a line joining them: every line the re-entry sample draws has length zero, and it draws one when its coordinates are not negative |
| Trail.Run | MousePathWpf/Views/MainView.xaml.cs:98-161 | definition: successive DrawPoints calls, each one Step applied to the state and canvas the previous left |
| Trail.RunKeepsCanvas | MousePathWpf/Views/MainView.xaml.cs:98-161 | as long as no sample stops for more than two seconds, a run only appends to the canvas |
| Trail.Chain | MousePathWpf/Views/MainView.xaml.cs:148-160 | the expected trail has one line per sample, line k joining sample k-1 (or the starting point) to sample k |
| Trail.RunDrawsChain | MousePathWpf/Views/MainView.xaml.cs:139-161 | from a drawn previous point, a moving cursor appends exactly its chain of lines and ends at its last sample and clock reading |
| Trail.TrailAfterReset | MousePathWpf/Views/MainView.xaml.cs:139-161 | after a reset, n moving samples append exactly n lines, the first of zero length |
| Views.Route | MousePathWpf/Views/MainView.xaml.cs:53-79 | a tag is handled iff it spells the channel's tag ("mousemoved" to DrawPoints, "export" to the save dialog) with any of its letters in capitals; any other tag raises ArgumentOutOfRangeException with that tag |
| Views.RouteIgnoresCase | MousePathWpf/Views/MainView.xaml.cs:57-79 | tags that differ only in case are routed alike |
| Views.MouseMovedIsRouted | MousePathWpf/ViewModels/MainViewModel.cs:122-124 | the tag "MouseMoved" that the view model sends on a mouse move reaches DrawPoints and is refused on the action channel |
| Views.ExportIsRouted | MousePathWpf/ViewModels/MainViewModel.cs:98-101 | the tag "Export" of the export request reaches the save dialog and is refused on the mouse channel |
| Views.MainView.constructor | MousePathWpf/Views/MainView.xaml.cs:35-46 | the trail starts with previous point (-1,-1) and multiplier 0 |
| Views.MainView.AddToCanvas | MousePathWpf/Views/MainView.xaml.cs:164-173 | the element is appended to the canvas |
| Views.MainView.DrawPoints | MousePathWpf/Views/MainView.xaml.cs:98-162 | the fields become Step's new state; the canvas is cleared by the export when one is requested and then gets Step's shapes; the export is the view model's automatic export of the container, with the directories kept; without it the view model and grid are untouched |
| Views.MainView.HandleStop | MousePathWpf/Views/MainView.xaml.cs:102-130 | the fields follow the stop phase of Step: a stop sets the multiplier and a stop over two seconds runs the automatic export, which clears the canvas; moving again draws the pending marker and resets the multiplier; without an export the view model, grid and files are untouched |
| Views.MainView.AutoExport | MousePathWpf/Views/MainView.xaml.cs:105-106 | the automatic export of the container: the canvas is left empty and the view model, grid and files change as Export states for deletePrevious = true and no file name; the view keeps its canvas |
| Views.MainView.DrawLine | MousePathWpf/Views/MainView.xaml.cs:132-161 | the fields and the canvas follow the move phase of Step: outside the window the previous point is reset, inside it the line from the previous point is appended when both points are non-negative |
| Views.MainView.ReceiveMouseMessage | MousePathWpf/Views/MainView.xaml.cs:53-66 | "mousemoved" in any case runs DrawPoints; any other tag is refused with nothing changed |
| Views.MainView.GetExportLocation | MousePathWpf/Views/MainView.xaml.cs:83-96 | a chosen file is exported with deletePrevious = false (never queuing the previous file, flag set, directories kept); a cancelled dialog changes nothing |
| Views.MainView.ReceiveActionMessage | MousePathWpf/Views/MainView.xaml.cs:68-80 | "export" in any case opens the dialog; any other tag is refused with nothing changed |

## Findings

| source | as written | input that shows it | evidently intended | confidence | as-written member | corrected member |
|---|---|---|---|---|---|---|
| MousePathWpf/ViewModels/MainViewModel.cs:155-158 | the window is sized to the union of the screens but placed at Top = Left = 0, dropping the union's X and Y | screens (0,0,1920,1080) and (-1280,0,1280,1024): the union is (-1280,0,3200,1080), the window becomes (0,0,3200,1080) and misses the left screen | Left and Top take the union's X and Y, so the window covers every screen | medium, not executed | ViewModels.ResizeMissesScreenLeftOfPrimary | ViewModels.ResizeToUnionOfScreens |

## Left out

- Export.ToPng: rendering, PNG encoding and the file stream are modelled as one opaque write after which the file exists. The image's content is not modelled. Write failures are not modelled. The null-path early return cannot happen, because `new Uri` never yields null.
- Uri: percent-escaping, UNC paths and the exception for a relative path are not modelled. The Uri string is "file:///" followed by the canonical path.
- File system: case-insensitive names and the quirks of Windows wildcard matching (short names) are not modelled. Exceptions other than `IOException` are not modelled: none from `File.Delete`, `DirectoryInfo.Create` or `Directory.GetFiles`.
- The global mouse hook, the Rx `Throttle`, and the `MouseX`/`MouseY` properties with their change notifications are runtime and UI plumbing.
- `Dispatcher.BeginInvoke` and the re-dispatch in `AddToCanvas` are modelled as immediate calls on the UI thread. `DrawPoints` calls are sequential.
- `DateTime.Now`: `secondsSinceStop`, `now` and `ticks` are inputs. The `(int)` truncation of `TotalSeconds` is not modelled. Nor is its overflow while `_lastStopped` still holds `DateTime.MinValue`. The initial `_lastStopped` is the clock reading 0.
- The marker diameter `10 * (1 + ln m)` is floating point. The marker record keeps the integer multiplier and its centre.
- `Left`, `Top`, `ActualWidth`, `ActualHeight`, `Height`, `Width` and the points are doubles in WPF and ints here. The epsilon comparison of the resize nudges becomes `!=`. How layout turns `Width` into `ActualWidth` is not modelled.
- Rectangle arithmetic is unbounded: 32-bit overflow of screen coordinates is not modelled.
- App.xaml.cs window startup, the `SessionSwitch` subscription, the `ContentRendered` and `Closing` wiring, `ExitCommand`, the brush setup and the save dialog itself are UI or OS calls. The dialog's answer is the `chosen` parameter.
- Text.ToLowerInvariant: lowers only the ASCII capitals A-Z, while .NET also lowers other capitals ("É" to "é"). Routing is unaffected: the only non-ASCII characters that lower to ASCII letters are "İ" (to "i") and the Kelvin sign (to "k"), and neither "mousemoved" nor "export" contains an i or a k.
- MainView.xaml is not part of this model. `Views.MainView.Valid` takes the view's `_canvas` to be the first Canvas child of `container`, which is what makes the export clear the canvas that DrawPoints draws on. `GetExportLocation` exports `container`, taking it to be the grid the XAML binds as the ExportCommand's parameter (MousePathWpf/ViewModels/MainViewModel.cs:97-101).
- `Debug.WriteLine` in Cleanup's IOException handler is diagnostics output and is not modelled.
- `RaisePropertyChanged("CurrentCachedImage")` in the property setter is a data-binding notification and is not modelled; the model assigns the field.
- `base.Cleanup()` at the end of `MainViewModel.Cleanup` (the MVVM Light messenger unregistration) is not modelled; the messenger is not part of this model.
- Views.MainView.ReceiveMouseMessage: states the trail's new state and canvas but not the view model's export effects, which DrawPoints states.
- Views.MainView.ReceiveActionMessage: states the canvas, the cached image and the flag but not the grid, queue and file effects, which GetExportLocation states.
