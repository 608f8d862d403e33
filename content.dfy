/**
 * The content records of the control surface (src/control/control.js:30-78): what can be
 * staged or live, the entries of a slideshow queue, and the two path derivations the
 * control surface uses to decide what to preview and what is on the output.
 */
module Content {
  import opened Wrappers

  /** One queue entry. Entries loaded from a preset carry no type; only `video` is tested. */
  datatype QueueEntry = QueueEntry(path: string, displayName: string, isVideo: bool)

  /**
   * A slideshow record. The staged copy uses the pending lists, the live copy the
   * playback fields (paused, timer, waitingForVideo); the source keeps both kinds in
   * objects of the one type 'slideshow'.
   */
  datatype Show = Show(
    id: string,
    queue: seq<QueueEntry>,
    index: int,
    interval: nat,
    loop: bool,
    transition: string,
    pendingAdds: seq<QueueEntry>,
    pendingRemoves: seq<string>,
    paused: bool,
    timer: bool,
    waitingForVideo: bool)

  datatype Content =
    | Standby
    | SingleImage(path: string, displayName: string)
    | SingleVideo(path: string, displayName: string, currentTime: real, duration: real)
    | Slideshow(show: Show)

  /** A media library file, as the catalog returns it. */
  datatype LibraryItem = LibraryItem(path: string, name: string, displayName: string, isVideo: bool)

  datatype PresetImage = PresetImage(path: string, displayName: string)
  datatype ShowSettings = ShowSettings(interval: nat, loop: bool, transition: string)
  datatype Preset = Preset(id: string, images: seq<PresetImage>, settings: ShowSettings)

  const DefaultInterval: nat := 7000
  const DefaultTransition: string := "fade"
  const DefaultSettings := ShowSettings(DefaultInterval, true, DefaultTransition)

  /** The queue index is a position of the queue, or 0 when the queue is empty. */
  predicate IndexOk(s: Show) {
    0 <= s.index && (s.index < |s.queue| || s.index == 0)
  }

  /** The number of '/' characters `p` ends with. */
  function TrailingSlashes(p: string): (n: nat)
    ensures n <= |p|
    ensures forall i :: |p| - n <= i < |p| ==> p[i] == '/'
    ensures n == |p| || p[|p| - n - 1] != '/'
    decreases |p|
  {
    if p != [] && p[|p| - 1] == '/' then TrailingSlashes(p[..|p| - 1]) + 1 else 0
  }

  /** The number of non-'/' characters `p` ends with: the length of its last component. */
  function ComponentLength(p: string): (n: nat)
    ensures n <= |p|
    ensures forall i :: |p| - n <= i < |p| ==> p[i] != '/'
    ensures n == |p| || p[|p| - n - 1] == '/'
    decreases |p|
  {
    if p != [] && p[|p| - 1] != '/' then ComponentLength(p[..|p| - 1]) + 1 else 0
  }

  /**
   * `path.basename(p)`: trailing separators are ignored, and the result is the longest
   * run of non-'/' characters that ends where they begin.
   */
  function BaseName(p: string): (r: string)
    ensures forall i :: 0 <= i < |r| ==> r[i] != '/'
    ensures |r| + TrailingSlashes(p) <= |p|
    ensures r == p[|p| - TrailingSlashes(p) - |r|..|p| - TrailingSlashes(p)]
    ensures |r| + TrailingSlashes(p) < |p| ==> p[|p| - TrailingSlashes(p) - |r| - 1] == '/'
  {
    var e := |p| - TrailingSlashes(p);
    var n := ComponentLength(p[..e]);
    assert forall i :: e - n <= i < e ==> p[..e][i] == p[i];
    p[e - n..e]
  }

  /** The base name of a path whose last component is `name`. */
  lemma BaseNameOfJoin(dir: string, name: string)
    requires name != [] && '/' !in name
    ensures BaseName(dir + "/" + name) == name
  {
    var p := dir + "/" + name;
    assert p[|p| - 1] == name[|name| - 1];
    assert TrailingSlashes(p) == 0;
    var r := BaseName(p);
    assert forall k :: |p| - |name| <= k < |p| ==> p[k] == name[k - (|p| - |name|)];
    assert p[|p| - |name| - 1] == '/';
    assert |r| == |name|;
    assert p[|p| - |name|..] == name;
  }

  /** The index of the last '.' of `name`, or -1. */
  function LastDot(name: string): (i: int)
    ensures -1 <= i < |name|
    ensures i >= 0 ==> name[i] == '.'
    ensures forall j :: i < j < |name| ==> name[j] != '.'
  {
    if name == [] then -1
    else if name[|name| - 1] == '.' then |name| - 1
    else LastDot(name[..|name| - 1])
  }

  /**
   * `name.replace(/\.[^/.]+$/, '')`: a final extension (a '.' followed by at least one
   * character that is not '/' or '.') is removed, and nothing else is; see StripsExtension
   * for the other direction.
   */
  function StripExtension(name: string): (r: string)
    ensures r <= name
    ensures r != name ==>
      (&& |name| > |r| + 1
       && name[|r|] == '.'
       && forall j :: |r| < j < |name| ==> name[j] != '.' && name[j] != '/')
  {
    var i := LastDot(name);
    if i >= 0 && i + 1 < |name| && '/' !in name[i + 1..] then name[..i] else name
  }

  /** A name that ends in an extension loses exactly that extension. */
  lemma StripsExtension(stem: string, ext: string)
    requires ext != [] && '.' !in ext && '/' !in ext
    ensures StripExtension(stem + "." + ext) == stem
  {
    var name := stem + "." + ext;
    var i := LastDot(name);
    assert name[|stem|] == '.';
    assert forall k :: |stem| < k < |name| ==> name[k] == ext[k - |stem| - 1];
    assert i == |stem|;
    assert name[i + 1..] == ext;
    assert name[..i] == stem;
  }

  /** `path.basename(p).replace(/\.[^/.]+$/, '')`: the base name with its extension removed. */
  function DefaultDisplayName(p: string): (r: string)
    ensures '/' !in r
    ensures r <= BaseName(p)
  {
    StripExtension(BaseName(p))
  }

  /** The default display name of `dir/stem.ext` is `stem`. */
  lemma DefaultNameOfFile(dir: string, stem: string, ext: string)
    requires ext != [] && '.' !in ext && '/' !in ext && '/' !in stem
    ensures DefaultDisplayName(dir + "/" + stem + "." + ext) == stem
  {
    var name := stem + "." + ext;
    assert dir + "/" + stem + "." + ext == dir + "/" + name;
    assert '/' !in name by {
      forall k | 0 <= k < |name| ensures name[k] != '/' {
        if k < |stem| { assert name[k] == stem[k]; }
        else if k > |stem| { assert name[k] == ext[k - |stem| - 1]; }
      }
    }
    BaseNameOfJoin(dir, name);
    StripsExtension(stem, ext);
  }

  function OrElse(s: string, default: string): string {
    if s == "" then default else s
  }

  function CreateSingleImage(filePath: string, displayName: string): (c: Content)
    ensures c.SingleImage? && c.path == filePath
    ensures displayName != "" ==> c.displayName == displayName
    ensures displayName == "" ==> c.displayName == DefaultDisplayName(filePath)
  {
    SingleImage(filePath, OrElse(displayName, DefaultDisplayName(filePath)))
  }

  function CreateSingleVideo(filePath: string, displayName: string, currentTime: real): (c: Content)
    ensures c.SingleVideo? && c.path == filePath && c.currentTime == currentTime && c.duration == 0.0
    ensures displayName != "" ==> c.displayName == displayName
    ensures displayName == "" ==> c.displayName == DefaultDisplayName(filePath)
  {
    SingleVideo(filePath, OrElse(displayName, DefaultDisplayName(filePath)), currentTime, 0.0)
  }

  /**
   * `createSlideshow`: the falsy-argument defaults of the source (an empty id is replaced by
   * the freshly generated `freshId`, a zero interval by 7000 ms, an empty transition by
   * "fade"); the pending lists start empty.
   */
  function CreateSlideshow(id: string, freshId: string, queue: seq<QueueEntry>, index: int,
                           interval: nat, loop: bool, transition: string): (s: Show)
    ensures s.queue == queue && s.index == index && s.loop == loop
    ensures s.pendingAdds == [] && s.pendingRemoves == []
    ensures s.id == (if id == "" then freshId else id)
    ensures s.interval == (if interval == 0 then DefaultInterval else interval) && s.interval > 0
    ensures s.transition != "" && (transition != "" ==> s.transition == transition)
    ensures !s.paused && !s.timer && !s.waitingForVideo
  {
    Show(OrElse(id, freshId), queue, index, if interval == 0 then DefaultInterval else interval,
         loop, OrElse(transition, DefaultTransition), [], [], false, false, false)
  }

  /**
   * `createLiveSlideshow`: a snapshot of the staged show for the output, not paused and
   * without a timer. The live record has no pending lists (they are empty here).
   */
  function CreateLiveSlideshow(staged: Show): (s: Show)
    ensures s.id == staged.id && s.queue == staged.queue && s.index == staged.index
    ensures s.interval == staged.interval && s.loop == staged.loop && s.transition == staged.transition
    ensures !s.paused && !s.timer && !s.waitingForVideo
    ensures s.pendingAdds == [] && s.pendingRemoves == []
    ensures IndexOk(staged) ==> IndexOk(s)
  {
    Show(staged.id, staged.queue, staged.index, staged.interval, staged.loop, staged.transition,
         [], [], false, false, false)
  }

  /** The entry a slideshow is showing, if its index points into the queue. */
  function CurrentEntry(s: Show): (e: Option<QueueEntry>)
    ensures e.Some? <==> 0 <= s.index < |s.queue|
    ensures e.Some? ==> e.value in s.queue
  {
    if 0 <= s.index < |s.queue| then Some(s.queue[s.index]) else None
  }

  /**
   * `getStagedImagePath` / `getLiveImagePath`: the image the content shows now. A slideshow
   * yields the path of its current entry unless that entry is a video or its path is empty.
   */
  function ImagePathOf(c: Option<Content>): (r: Option<string>)
    ensures r.Some? ==> c.Some? && (c.value.SingleImage? || c.value.Slideshow?)
    ensures r.Some? && c.value.SingleImage? ==> r.value == c.value.path
    ensures r.Some? && c.value.Slideshow? ==>
      r.value != "" && exists e :: CurrentEntry(c.value.show) == Some(e) && !e.isVideo && e.path == r.value
    ensures c.Some? && c.value.SingleImage? ==> r.Some?
    ensures c.Some? && c.value.Slideshow? && CurrentEntry(c.value.show).Some? ==>
      var e := CurrentEntry(c.value.show).value; r.Some? == (!e.isVideo && e.path != "")
  {
    if c.None? then None
    else match c.value
      case SingleImage(p, _) => Some(p)
      case Slideshow(s) =>
        if |s.queue| > 0 then
          match CurrentEntry(s)
          case Some(e) => if e.isVideo || e.path == "" then None else Some(e.path)
          case None => None
        else None
      case _ => None
  }

  /** `getStagedVideoPath` / `getLiveVideoPath`: the video the content plays now. */
  function VideoPathOf(c: Option<Content>): (r: Option<string>)
    ensures r.Some? ==> c.Some? && (c.value.SingleVideo? || c.value.Slideshow?)
    ensures c.Some? && c.value.SingleVideo? ==> r == Some(c.value.path)
    ensures c.Some? && c.value.Slideshow? ==>
      (r.Some? <==> CurrentEntry(c.value.show).Some? && CurrentEntry(c.value.show).value.isVideo)
    ensures r.Some? && c.value.Slideshow? ==> r.value == CurrentEntry(c.value.show).value.path
  {
    if c.None? then None
    else match c.value
      case SingleVideo(p, _, _, _) => Some(p)
      case Slideshow(s) =>
        if |s.queue| > 0 then
          match CurrentEntry(s)
          case Some(e) => if e.isVideo then Some(e.path) else None
          case None => None
        else None
      case _ => None
  }

  /** No content ever yields both an image path and a video path. */
  lemma ImageAndVideoExclusive(c: Option<Content>)
    ensures !(ImagePathOf(c).Some? && VideoPathOf(c).Some?)
  {
  }

  /** `getStagedSlideshowQueue` when nothing slideshow is staged: the current preset's images. */
  function PresetQueue(p: Option<Preset>): (q: seq<QueueEntry>)
    ensures p.None? ==> q == []
    ensures p.Some? ==> |q| == |p.value.images|
    ensures p.Some? ==> forall i :: 0 <= i < |q| ==> q[i].path == p.value.images[i].path && !q[i].isVideo
  {
    if p.None? then [] else PresetEntries(p.value.images)
  }

  /** The queue entry of one preset image: its path, and its display name or else the base name. */
  function PresetEntry(img: PresetImage): (e: QueueEntry)
    ensures e.path == img.path && !e.isVideo
    ensures e.displayName == OrElse(img.displayName, BaseName(img.path))
  {
    QueueEntry(img.path, OrElse(img.displayName, BaseName(img.path)), false)
  }

  function PresetEntries(images: seq<PresetImage>): (q: seq<QueueEntry>)
    ensures |q| == |images|
    ensures forall i :: 0 <= i < |q| ==> q[i] == PresetEntry(images[i])
  {
    if images == [] then []
    else
      [PresetEntry(images[0])] + PresetEntries(images[1..])
  }

  /** `mediaLibrary.find(f => f.path === p)`; FindLibraryItemIsFirst says which item it finds. */
  function FindLibraryItem(library: seq<LibraryItem>, p: string): (r: Option<LibraryItem>)
    ensures r.Some? ==> r.value in library && r.value.path == p
    ensures r.None? ==> forall i :: 0 <= i < |library| ==> library[i].path != p
  {
    if library == [] then None
    else if library[0].path == p then Some(library[0])
    else FindLibraryItem(library[1..], p)
  }

  /** `find` returns the first item with the path. */
  lemma {:induction false} FindLibraryItemIsFirst(library: seq<LibraryItem>, p: string, i: nat)
    requires i < |library| && library[i].path == p
    requires forall j :: 0 <= j < i ==> library[j].path != p
    ensures FindLibraryItem(library, p) == Some(library[i])
  {
    if i > 0 {
      assert library[0].path != p;
      FindLibraryItemIsFirst(library[1..], p, i - 1);
    }
  }

}
