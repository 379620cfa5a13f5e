/**
 * MainViewModel: the export bookkeeping (current cached image, the "was
 * exported by the user" flag, the files still to delete), the cleanup of
 * automatic snapshots, and the window geometry over all screens.
 */
module ViewModels {
  import opened Wrappers
  import opened Text
  import opened Files
  import opened Controls
  import opened Screens

  /** The folder automatic snapshots go to, under the user's pictures folder. */
  function TempPictureFolder(pictures: string): string {
    pictures + "\\MousePath\\"
  }

  /** The file Export writes: the chosen one, or an automatic snapshot named after the ticks. */
  function ExportTarget(folder: string, filename: Option<string>, ticks: nat): string {
    if filename.Some? then filename.value else TempFileName(folder, ticks)
  }

  /** The previous cached image as a local path ("" when there is none). */
  function PreviousFile(cached: string): string {
    if cached == "" then "" else Replace(cached, UriScheme, "")
  }

  /** Export queues the previous file for deletion. */
  predicate QueuesPrevious(deletePrevious: bool, cached: string, wasExported: bool) {
    deletePrevious && PreviousFile(cached) != "" && !wasExported
  }

  /** The window rectangle ResizeCommandExecuted leaves: the union's size, placed at (0, 0). */
  function ResizedWindow(union: Rect): Rect {
    Rect(0, 0, union.width, union.height)
  }

  /** The union of the screens' bounds: the left fold of Rectangle.Union. */
  method GetUnionOfScreens(allScreens: array<Rect>) returns (r: Rect)
    requires allScreens.Length > 0
    ensures r == UnionOf(allScreens[..])
    ensures allScreens.Length == 1 ==> r == allScreens[0]
    ensures forall i :: 0 <= i < allScreens.Length ==> Encloses(r, allScreens[i])
  {
    if allScreens.Length == 1 {
      return allScreens[0];
    }
    r := allScreens[0];
    for i := 1 to allScreens.Length
      invariant r == UnionOf(allScreens[..i])
    {
      assert allScreens[..i + 1][..i] == allScreens[..i];
      r := Union(r, allScreens[i]);
    }
    assert allScreens[..allScreens.Length] == allScreens[..];
    UnionOfEnclosesAll(allScreens[..]);
  }

  /**
   * Sizes the window to the union of the screens and moves it to (0, 0).
   * The nudges to Height + 1 and Width + 1 are overwritten at once.
   */
  method ResizeCommandExecuted(window: Window, allScreens: array<Rect>)
    requires allScreens.Length > 0
    modifies window
    ensures window.height == UnionOf(allScreens[..]).height
    ensures window.width == UnionOf(allScreens[..]).width
    ensures window.top == 0 && window.left == 0
    ensures Rect(window.left, window.top, window.width, window.height) == ResizedWindow(UnionOf(allScreens[..]))
    ensures window.actualWidth == old(window.actualWidth) && window.actualHeight == old(window.actualHeight)
  {
    var r := GetUnionOfScreens(allScreens);
    if window.height != window.actualHeight {
      window.height := r.height + 1;
    }
    if window.width != window.actualWidth {
      window.width := r.width + 1;
    }
    window.height := r.height;
    window.width := r.width;
    window.top := 0;
    window.left := 0;
  }

  /**
   * With a screen to the left of the primary one, the resized window does
   * not cover it: the union's X and Y are dropped.
   */
  lemma ResizeMissesScreenLeftOfPrimary()
    ensures var screens := [Rect(0, 0, 1920, 1080), Rect(-1280, 0, 1280, 1024)];
      && UnionOf(screens) == Rect(-1280, 0, 3200, 1080)
      && !Encloses(ResizedWindow(UnionOf(screens)), screens[1])
  {
    var screens := [Rect(0, 0, 1920, 1080), Rect(-1280, 0, 1280, 1024)];
    assert screens[..1] == [screens[0]];
    assert UnionOf(screens) == Union(screens[0], screens[1]);
  }

  /** The corrected geometry: the window takes the union rectangle, position included. */
  method ResizeToUnionOfScreens(window: Window, allScreens: array<Rect>)
    requires allScreens.Length > 0
    modifies window
    ensures Rect(window.left, window.top, window.width, window.height) == UnionOf(allScreens[..])
    ensures forall i :: 0 <= i < allScreens.Length ==>
      Encloses(Rect(window.left, window.top, window.width, window.height), allScreens[i])
    ensures window.actualWidth == old(window.actualWidth) && window.actualHeight == old(window.actualHeight)
  {
    var r := GetUnionOfScreens(allScreens);
    window.height := r.height;
    window.width := r.width;
    window.top := r.y;
    window.left := r.x;
  }

  /** The set arithmetic behind ExportTwice: the second snapshot survives unless it is the unlocked first one. */
  lemma SecondSnapshotStays(f0: set<string>, n1: string, n2: string, locked: set<string>)
    ensures ((f0 + {n1}) + {n2}) - ({n1} - locked) == (f0 + {n1, n2}) - ({n1} - locked)
    ensures n2 in ((f0 + {n1}) + {n2}) - ({n1} - locked) <==> n1 != n2 || n1 in locked
  {
  }

  /** ResetCommand: clears the canvas. */
  method Reset(c: Canvas)
    modifies c
    ensures c.children == []
  {
    c.children := [];
  }

  /** Takes the grid's first image out of the grid and onto the canvas, so the snapshot shows it. */
  method LendImage(g: Grid, canvas: Canvas) returns (image: Option<Element>)
    modifies g, canvas
    ensures image.Some? <==> FirstIndex(old(g.children), IsImage).Some?
    ensures image.Some? ==>
      var i := FirstIndex(old(g.children), IsImage).value;
      && image.value == old(g.children)[i]
      && g.children == RemoveAt(old(g.children), i)
      && canvas.children == old(canvas.children) + [image.value]
    ensures image.None? ==> g.children == old(g.children) && canvas.children == old(canvas.children)
  {
    var found := FirstIndex(g.children, IsImage);
    if found.Some? {
      var e := g.children[found.value];
      g.children := RemoveAt(g.children, found.value);
      canvas.children := canvas.children + [e];
      image := Some(e);
    } else {
      image := None;
    }
  }

  /** Inserts the image back at index 0 of the grid. */
  method ReturnImage(g: Grid, image: Option<Element>)
    modifies g
    ensures g.children == if image.Some? then [image.value] + old(g.children) else old(g.children)
  {
    if image.Some? {
      g.children := [image.value] + g.children;
    }
  }

  /**
   * The drawing part of Export: the grid's image is lent to the canvas, the
   * canvas is saved as a PNG file at target, cleared, and the image goes
   * back to the front of the grid.
   */
  method RenderSnapshot(g: Grid, canvas: Canvas, fs: FileSystem, target: string)
    modifies g, canvas, fs
    ensures g.children == MoveImageToFront(old(g.children))
    ensures canvas.children == []
    ensures fs.files == old(fs.files) + {Canon(target)}
    ensures fs.dirs == old(fs.dirs)
  {
    var image := LendImage(g, canvas);
    fs.WritePng(target);
    Reset(canvas);
    ReturnImage(g, image);
  }

  /**
   * What a completed Export did to the view model, the grid and the files:
   * the image is back at the front of the grid, the cached image is the
   * target's Uri, the previous file is queued when it is to be deleted, the
   * flag records whether this was a user export, the files are the old
   * ones plus the target minus whatever the queue could delete, and the
   * directories are untouched.
   */
  twostate predicate ExportEffect(vm: MainViewModel, g: Grid, deletePrevious: bool, filename: Option<string>, ticks: nat)
    reads vm, g, vm.fs
  {
    var target := ExportTarget(vm.tempFolder, filename, ticks);
    && g.children == MoveImageToFront(old(g.children))
    && vm.currentCachedImage == UriString(target)
    && vm.filesToTryToDelete == old(vm.filesToTryToDelete) +
         (if QueuesPrevious(deletePrevious, old(vm.currentCachedImage), old(vm.wasExported))
          then [PreviousFile(old(vm.currentCachedImage))] else [])
    && vm.wasExported == !deletePrevious
    && vm.fs.files == (old(vm.fs.files) + {Canon(target)}) - Deletable(vm.filesToTryToDelete, vm.fs.locked)
    && vm.fs.dirs == old(vm.fs.dirs)
  }

  class MainViewModel {
    const fs: FileSystem
    const tempFolder: string
    /** CurrentCachedImage: the Uri string of the last export; "" stands for null. */
    var currentCachedImage: string
    /** _wasCurrentCachedImageExported */
    var wasExported: bool
    /** _filesToTryToDelete */
    var filesToTryToDelete: seq<string>

    /** The constructor's state, and the temp folder created when missing. */
    constructor(pictures: string, fs: FileSystem)
      modifies fs
      ensures this.fs == fs && tempFolder == TempPictureFolder(pictures)
      ensures currentCachedImage == "" && !wasExported && filesToTryToDelete == []
      ensures fs.dirs == old(fs.dirs) + {Canon(TempPictureFolder(pictures))}
      ensures fs.files == old(fs.files)
    {
      this.fs := fs;
      tempFolder := TempPictureFolder(pictures);
      currentCachedImage := "";
      wasExported := false;
      filesToTryToDelete := [];
      new;
      if !fs.DirectoryExists(tempFolder) {
        fs.CreateDirectory(tempFolder);
      }
    }

    /**
     * Deletes every queued file that exists; an IOException leaves the file
     * in place. The queue itself is kept whole.
     */
    method TryToDeleteFiles()
      modifies fs
      ensures fs.files == old(fs.files) - Deletable(filesToTryToDelete, fs.locked)
      ensures fs.dirs == old(fs.dirs)
    {
      var pending := filesToTryToDelete;
      var deleted: seq<string> := [];
      for i := 0 to |pending|
        invariant fs.files == old(fs.files) - Deletable(pending[..i], fs.locked)
        invariant fs.dirs == old(fs.dirs)
      {
        var file := pending[i];
        assert pending[..i + 1] == pending[..i] + [file];
        if fs.Exists(file) {
          var ioError := fs.Delete(file);
          if !ioError {
            deleted := deleted + [file];
          }
        }
      }
      assert pending[..|pending|] == pending;
    }

    /**
     * Snapshots the first canvas of the grid to a PNG file (with the grid's
     * image drawn on it), clears it, puts the image back at the front of the
     * grid, records the new cached image, queues the previous one for
     * deletion when it was an automatic snapshot, and retries every queued
     * deletion. A grid without a canvas changes nothing.
     */
    method Export(g: Grid, deletePrevious: bool, filename: Option<string>, ticks: nat)
      modifies this, g, fs, CanvasFrame(g.children)
      ensures FoundCanvas(old(g.children)).None? ==>
        && currentCachedImage == old(currentCachedImage)
        && wasExported == old(wasExported)
        && filesToTryToDelete == old(filesToTryToDelete)
        && g.children == old(g.children)
        && fs.files == old(fs.files)
      ensures FoundCanvas(old(g.children)).Some? ==>
        FoundCanvas(old(g.children)).value.children == [] && ExportEffect(this, g, deletePrevious, filename, ticks)
      ensures fs.dirs == old(fs.dirs)
    {
      var tempFile := PreviousFile(currentCachedImage);
      var target := ExportTarget(tempFolder, filename, ticks);
      var location := UriString(target);
      var found := FoundCanvas(g.children);
      if found.None? {
        return;
      }
      RenderSnapshot(g, found.value, fs, target);
      currentCachedImage := location;
      RecordExport(tempFile, deletePrevious);
    }

    /**
     * The bookkeeping after a snapshot: queues the previous file when it was
     * an automatic snapshot about to be replaced, records whether this
     * export was a user export, and retries every queued deletion.
     */
    method RecordExport(tempFile: string, deletePrevious: bool)
      modifies this, fs
      ensures currentCachedImage == old(currentCachedImage)
      ensures filesToTryToDelete == old(filesToTryToDelete) +
        (if deletePrevious && tempFile != "" && !old(wasExported) then [tempFile] else [])
      ensures wasExported == !deletePrevious
      ensures fs.files == old(fs.files) - Deletable(filesToTryToDelete, fs.locked)
      ensures fs.dirs == old(fs.dirs)
    {
      if deletePrevious && tempFile != "" && !wasExported {
        filesToTryToDelete := filesToTryToDelete + [tempFile];
      }
      wasExported := !deletePrevious;
      TryToDeleteFiles();
    }

    /**
     * Two automatic exports in a row on a fresh view model: the first
     * snapshot is queued and deleted (unless it is locked) and the second
     * one stays, except when both were taken at the same tick: then they are
     * one file, and it is deleted right after being written.
     */
    method ExportTwice(g: Grid, t1: nat, t2: nat)
      requires currentCachedImage == "" && !wasExported && filesToTryToDelete == []
      requires FoundCanvas(g.children).Some?
      requires !ContainsText(Canon(TempFileName(tempFolder, t1)), UriScheme)
      modifies this, g, fs, CanvasFrame(g.children)
      ensures var n1, n2 := Canon(TempFileName(tempFolder, t1)), Canon(TempFileName(tempFolder, t2));
        && filesToTryToDelete == [n1]
        && fs.files == (old(fs.files) + {n1, n2}) - ({n1} - fs.locked)
        && (n2 in fs.files <==> t1 != t2 || n1 in fs.locked)
    {
      var n1, n2 := Canon(TempFileName(tempFolder, t1)), Canon(TempFileName(tempFolder, t2));
      ghost var f0 := fs.files;
      assert Deletable([], fs.locked) == {};
      MoveImageToFrontKeepsCanvas(g.children);
      Export(g, true, None, t1);
      ghost var f1 := fs.files;
      assert f1 == f0 + {n1};
      assert filesToTryToDelete == [] && !wasExported;
      LocalPathOfUri(TempFileName(tempFolder, t1));
      assert |n1| > 0;
      assert PreviousFile(currentCachedImage) == n1;
      Export(g, true, None, t2);
      assert filesToTryToDelete == [n1];
      CanonIsCanonical(TempFileName(tempFolder, t1));
      CanonOfCanonical(n1);
      assert Deletable([n1], fs.locked) == {n1} - fs.locked;
      assert fs.files == (f1 + {n2}) - ({n1} - fs.locked);
      if t1 != t2 {
        TempFileNamesDiffer(tempFolder, t1, t2);
      }
      SecondSnapshotStays(f0, n1, n2, fs.locked);
    }

    /**
     * When the temp folder exists, deletes every file in it whose name
     * matches mousePath.temp.*; an IOException leaves that file in place.
     */
    method Cleanup()
      modifies fs
      ensures fs.DirectoryExists(tempFolder) ==>
        fs.files == old(fs.files) - (TempSnapshots(old(fs.files), tempFolder) - fs.locked)
      ensures !fs.DirectoryExists(tempFolder) ==> fs.files == old(fs.files)
      ensures fs.dirs == old(fs.dirs)
    {
      if fs.DirectoryExists(tempFolder) {
        var todo := TempSnapshots(fs.files, tempFolder);
        ghost var listed := todo;
        while todo != {}
          invariant todo <= listed
          invariant fs.files == old(fs.files) - ((listed - todo) - fs.locked)
          invariant fs.dirs == old(fs.dirs)
          decreases todo
        {
          var file :| file in todo;
          SnapshotIsCanonical(file, tempFolder);
          var ioError := fs.Delete(file);
          todo := todo - {file};
        }
      }
    }
  }
}
