/** The Finder app: a sidebar of folders and a grid listing the selected folder. */
module Finder {
  datatype Entry = Entry(name: string, icon: string, isDir: bool)

  /** The in-memory file system `fs`. */
  const Folders: map<string, seq<Entry>> :=
    map["Documents" := [Entry("Resume.pdf", "ri-file-pdf-line", false),
                        Entry("Notes.txt", "ri-file-text-line", false),
                        Entry("Projects", "ri-folder-line", true)],
        "Downloads" := [Entry("Installer.dmg", "ri-download-2-line", false),
                        Entry("Image.png", "ri-image-line", false)],
        "Pictures" := [Entry("Vacation", "ri-folder-line", true),
                       Entry("Photo.jpg", "ri-image-line", false)],
        "Music" := [Entry("Song.mp3", "ri-music-line", false)]]

  /** The `data-path` of each sidebar item, in order (the last is "Macintosh HD"). */
  const SidebarPaths: seq<string> := ["Documents", "Downloads", "Pictures", "Music", "Documents"]

  /** `fs[path] || []`: the folder's entries, none for an unknown path. */
  function Listing(path: string): (r: seq<Entry>)
    ensures |r| > 0 <==> path in Folders
    ensures r != [] ==> r == Folders[path]
  {
    if path in Folders then Folders[path] else []
  }

  /** Every sidebar item names a folder of `fs`, and every such folder lists something. */
  lemma SidebarListsFolders(k: nat)
    requires k < |SidebarPaths|
    ensures SidebarPaths[k] in Folders && |Listing(SidebarPaths[k])| > 0
  {
  }

  class Finder {
    /** Index of the sidebar item with class `active`. */
    var active: nat
    /** The entries shown in `.file-grid`. */
    var grid: seq<Entry>

    /** `initFinder`: the first sidebar item is active and Documents is shown. */
    constructor ()
      ensures active == 0 && grid == Listing("Documents")
    {
      active := 0;
      grid := Listing("Documents");
    }

    /** `render(path)`. */
    method Render(path: string)
      modifies this
      ensures grid == Listing(path) && active == old(active)
    {
      grid := if path in Folders then Folders[path] else [];
    }

    /** A click on sidebar item `k`: it alone becomes active and its folder is rendered. */
    method ClickSidebar(k: nat)
      requires k < |SidebarPaths|
      modifies this
      ensures active == k && grid == Listing(SidebarPaths[k])
    {
      active := k;
      Render(SidebarPaths[k]);
    }
  }
}
