/**
 * The control surface's staging/live register and slideshow engine (src/control/control.js).
 * The module variables `staged`, `live` and `isSynced` with the transport state they drive
 * are the fields of `Controller`; every button handler, timer tick and output report is a
 * method. Messages to the output window are appended to `sent` instead of being sent, and
 * `activeIntervals` counts the running `setInterval` handles of the slideshow timer.
 */
module Control {
  import opened Wrappers
  import opened Content
  import opened GoLive
  import opened QueueEdit
  import opened Playback

  datatype VideoCommand = Play | Pause | Stop | Restart | Seek(time: real)

  /** The messages the control surface sends to the output window. */
  datatype Message =
    | ShowStandby
    | ShowImage(path: string)
    | ShowVideo(path: string, startTime: real)
    | ControlVideo(command: VideoCommand)
    | SetTransition(transition: string)

  /** A transport report of the output window's video (`VIDEO_STATE`). */
  datatype VideoState = VideoState(
    path: string,
    stopped: bool,
    playing: bool,
    paused: bool,
    ended: bool,
    currentTime: real,
    duration: real)

  /** The muted preview video element; a duration of 0 stands for "not yet known". */
  datatype PreviewVideo = PreviewVideo(paused: bool, currentTime: real, duration: real)

  predicate IsShow(c: Option<Content>) {
    c.Some? && c.value.Slideshow?
  }

  predicate IsVideo(c: Option<Content>) {
    c.Some? && c.value.SingleVideo?
  }

  predicate IsImage(c: Option<Content>) {
    c.Some? && c.value.SingleImage?
  }

  /** `stopLiveVideo`: a stop command goes out only while a single video is live. */
  function StopVideoMessages(live: Content): seq<Message> {
    if live.SingleVideo? then [ControlVideo(Stop)] else []
  }

  function SlideMessage(e: QueueEntry): Message {
    if e.isVideo then ShowVideo(e.path, 0.0) else ShowImage(e.path)
  }

  /** What `showCurrentLiveSlide` sends for a show: its current entry, if it has one. */
  function SlideMessages(s: Show): seq<Message> {
    match CurrentEntry(s)
    case None => []
    case Some(e) => [SlideMessage(e)]
  }

  /**
   * The live show record after `showCurrentLiveSlide`: a video entry disarms the timer and
   * waits for the video; an image entry arms the timer unless the show is paused.
   */
  function Presented(s: Show): Show {
    match CurrentEntry(s)
    case None => s
    case Some(e) =>
      if e.isVideo then s.(timer := false, waitingForVideo := true)
      else s.(waitingForVideo := false, timer := s.timer || !s.paused)
  }

  /**
   * What `updatePreviewDisplay` leaves of the preview video element: nothing staged or an
   * image removes it, a video (single or the current slideshow entry) replaces it by a new,
   * paused element at the staged time, and content that yields no non-empty path (the
   * paths are tested for truthiness) keeps it.
   */
  function PreviewAfterRefresh(staged: Option<Content>, current: Option<PreviewVideo>): (p: Option<PreviewVideo>)
    ensures staged.None? || staged.value.Standby? ==> p.None?
    ensures Truthy(VideoPathOf(staged)) ==> p.Some? && p.value.paused && p.value.duration == 0.0
    ensures Truthy(ImagePathOf(staged)) ==> p.None?
    ensures IsVideo(staged) && staged.value.path != "" ==> p == Some(PreviewVideo(true, staged.value.currentTime, 0.0))
    ensures staged.Some? && !staged.value.Standby? && !Truthy(VideoPathOf(staged)) && !Truthy(ImagePathOf(staged)) ==>
      p == current
  {
    if staged.None? || staged.value.Standby? then None
    else if Truthy(VideoPathOf(staged)) then
      Some(PreviewVideo(true, if staged.value.SingleVideo? then staged.value.currentTime else 0.0, 0.0))
    else if Truthy(ImagePathOf(staged)) then None
    else current
  }

  /** A JavaScript truthiness test of a path getter's result: a path that is not empty. */
  predicate Truthy(path: Option<string>) {
    path.Some? && path.value != ""
  }

  /** `getStagedSlideshowQueue`: the staged show's queue, else the current preset's images. */
  function StagedQueue(staged: Option<Content>, preset: Option<Preset>): (q: seq<QueueEntry>)
    ensures IsShow(staged) ==> q == staged.value.show.queue
    ensures !IsShow(staged) && preset.None? ==> q == []
    ensures !IsShow(staged) && preset.Some? ==>
      |q| == |preset.value.images| &&
      forall i :: 0 <= i < |q| ==> q[i] == PresetEntry(preset.value.images[i])
  {
    if IsShow(staged) then staged.value.show.queue else PresetQueue(preset)
  }

  /** `currentPreset?.id || null`; the empty id makes `createSlideshow` generate one. */
  function PresetId(preset: Option<Preset>): string {
    if preset.Some? then preset.value.id else ""
  }

  /** `slideshowPresets.find(p => p.id === id)`; FindPresetIsFirst says which preset it finds. */
  function FindPreset(presets: seq<Preset>, id: string): (r: Option<Preset>)
    ensures r.Some? ==> r.value in presets && r.value.id == id
    ensures r.None? ==> forall i :: 0 <= i < |presets| ==> presets[i].id != id
  {
    if presets == [] then None
    else if presets[0].id == id then Some(presets[0])
    else FindPreset(presets[1..], id)
  }

  /** `find` returns the first preset with the id. */
  lemma {:induction false} FindPresetIsFirst(presets: seq<Preset>, id: string, i: nat)
    requires i < |presets| && presets[i].id == id
    requires forall j :: 0 <= j < i ==> presets[j].id != id
    ensures FindPreset(presets, id) == Some(presets[i])
  {
    if i > 0 {
      assert presets[0].id != id;
      FindPresetIsFirst(presets[1..], id, i - 1);
    }
  }


  /** The new state of the preview element when a live transport report is mirrored into it. */
  function Mirrored(p: PreviewVideo, state: VideoState): (r: PreviewVideo)
    ensures state.playing ==> r.currentTime == state.currentTime
    ensures state.playing && !state.paused ==> !r.paused
    ensures !state.playing && state.paused ==> r.paused
    ensures !state.playing ==> r.currentTime == p.currentTime
    ensures !state.playing && !state.paused ==> r.paused == p.paused
    ensures r.duration == p.duration
  {
    var q := if state.playing && p.paused then p.(paused := false)
             else if state.paused && !p.paused then p.(paused := true)
             else p;
    if state.playing then q.(currentTime := state.currentTime) else q
  }

  class Controller {
    var staged: Option<Content>
    var live: Content
    var isSynced: bool
    var liveVideoState: Option<VideoState>
    var preview: Option<PreviewVideo>
    var currentPreset: Option<Preset>
    var queued: ShowSettings
    var activeIntervals: nat
    var sent: seq<Message>

    /**
     * The live half of the invariant: the live index is a position of the live queue, only
     * the live show owns an interval and at most one of it, and a paused show has none.
     */
    ghost predicate LiveValid()
      reads this
    {
      && (live.Slideshow? ==> IndexOk(live.show))
      && (live.Slideshow? && live.show.paused ==> !live.show.timer)
      && activeIntervals == (if live.Slideshow? && live.show.timer then 1 else 0)
    }

    /**
     * The register's invariant: LiveValid, the staged index is a position of the staged
     * queue, a staged show owns no interval, and a synced staged copy agrees with what is
     * live (same queue and index for a slideshow, same file for a video).
     */
    ghost predicate Valid()
      reads this
    {
      && LiveValid()
      && (IsShow(staged) ==> IndexOk(staged.value.show) && !staged.value.show.timer)
      && (isSynced && IsShow(staged) && live.Slideshow? ==>
            staged.value.show.queue == live.show.queue && staged.value.show.index == live.show.index)
      && (isSynced && IsVideo(staged) && live.SingleVideo? ==> staged.value.path == live.path)
    }

    /** `init` (87-88) with the initial values of the module variables (17-28). */
    constructor ()
      ensures Valid()
      ensures staged == None && live == Standby && !isSynced
      ensures liveVideoState == None && preview == None && currentPreset == None
      ensures queued == DefaultSettings && activeIntervals == 0 && sent == []
    {
      staged := None;
      live := Standby;
      isSynced := false;
      liveVideoState := None;
      preview := None;
      currentPreset := None;
      queued := DefaultSettings;
      activeIntervals := 0;
      sent := [];
    }

    // -------------------------------------------------------------------------------------
    // The slideshow timer.

    method StopLiveSlideshowTimer()
      requires LiveValid()
      modifies this`live, this`activeIntervals
      ensures LiveValid() && activeIntervals == 0
      ensures live == if old(live).Slideshow? then Slideshow(old(live).show.(timer := false)) else old(live)
    {
      if live.Slideshow? && live.show.timer {
        activeIntervals := activeIntervals - 1;
        live := Slideshow(live.show.(timer := false));
      }
    }

    /** A running interval is cleared before the new one is set: never two at once. */
    method StartLiveTimer()
      requires LiveValid()
      requires live.Slideshow? ==> !live.show.paused
      modifies this`live, this`activeIntervals
      ensures LiveValid()
      ensures live == if old(live).Slideshow? then Slideshow(old(live).show.(timer := true)) else old(live)
      ensures activeIntervals == if live.Slideshow? then 1 else 0
    {
      if !live.Slideshow? {
        return;
      }
      if live.show.timer {
        activeIntervals := activeIntervals - 1;
      }
      live := Slideshow(live.show.(timer := true));
      activeIntervals := activeIntervals + 1;
    }

    method ResetLiveTimer()
      requires LiveValid()
      modifies this`live, this`activeIntervals
      ensures LiveValid()
      ensures live == if old(live).Slideshow? && !old(live).show.paused
                      then Slideshow(old(live).show.(timer := true)) else old(live)
    {
      if !live.Slideshow? || live.show.paused {
        return;
      }
      StartLiveTimer();
    }

    // -------------------------------------------------------------------------------------
    // Showing and advancing the live show.

    method ShowCurrentLiveSlide()
      requires LiveValid()
      modifies this`live, this`activeIntervals, this`sent, this`preview
      ensures LiveValid()
      ensures live == if old(live).Slideshow? then Slideshow(Presented(old(live).show)) else old(live)
      ensures sent == old(sent) + if old(live).Slideshow? then SlideMessages(old(live).show) else []
      ensures preview == if old(live).Slideshow? && |old(live).show.queue| > 0 && isSynced && IsShow(staged)
                         then PreviewAfterRefresh(staged, old(preview)) else old(preview)
    {
      if !live.Slideshow? || |live.show.queue| == 0 {
        return;
      }
      var e := live.show.queue[live.show.index];
      if e.isVideo {
        if live.show.timer {
          activeIntervals := activeIntervals - 1;
          live := Slideshow(live.show.(timer := false));
        }
        sent := sent + [ShowVideo(e.path, 0.0)];
        live := Slideshow(live.show.(waitingForVideo := true));
      } else {
        sent := sent + [ShowImage(e.path)];
        live := Slideshow(live.show.(waitingForVideo := false));
        if !live.show.paused && !live.show.timer {
          StartLiveTimer();
        }
      }
      if isSynced && IsShow(staged) {
        preview := PreviewAfterRefresh(staged, preview);
      }
    }

    /**
     * One tick of the slideshow timer. Nothing happens while the show waits for a video;
     * otherwise the show moves one entry on, wrapping when it loops, and a synced staged
     * copy follows; past the last entry of a show that does not loop the output goes to
     * standby.
     */
    method AdvanceLiveSlide()
      requires Valid()
      modifies this`live, this`activeIntervals, this`sent, this`staged, this`isSynced, this`preview
      ensures Valid()
      ensures !old(live).Slideshow? || old(live).show.waitingForVideo ==> unchanged(this)
      ensures old(live).Slideshow? && !old(live).show.waitingForVideo ==>
        var s := old(live).show;
        var next := Advance(s.index, |s.queue|, s.loop);
        && (next.None? ==>
              && live == Standby && activeIntervals == 0
              && sent == old(sent) + [ShowStandby]
              && !isSynced
              && staged == (if old(isSynced) then None else old(staged))
              && preview == PreviewAfterRefresh(staged, old(preview)))
        && (next.Some? ==>
              && live == Slideshow(Presented(s.(index := next.value)))
              && isSynced == old(isSynced)
              && staged == (if old(isSynced) && IsShow(old(staged))
                            then Some(Slideshow(old(staged).value.show.(index := next.value)))
                            else old(staged))
              && sent == old(sent) + SlideMessages(s.(index := next.value))
              && preview == (if |s.queue| > 0 && old(isSynced) && IsShow(old(staged))
                             then PreviewAfterRefresh(staged, old(preview)) else old(preview)))
    {
      if !live.Slideshow? {
        return;
      }
      if live.show.waitingForVideo {
        return;
      }
      var next := Advance(live.show.index, |live.show.queue|, live.show.loop);
      if next.None? {
        // The source parks the index on the last entry just before standby replaces the show.
        HandleNaturalSlideshowEnd();
        return;
      }
      live := Slideshow(live.show.(index := next.value));
      if isSynced && IsShow(staged) {
        staged := Some(Slideshow(staged.value.show.(index := live.show.index)));
      }
      ShowCurrentLiveSlide();
    }

    /** The end of a show that does not loop: standby, and a synced staged copy is dropped. */
    method HandleNaturalSlideshowEnd()
      requires Valid()
      modifies this`live, this`activeIntervals, this`sent, this`staged, this`isSynced, this`preview
      ensures Valid()
      ensures live == Standby && activeIntervals == 0
      ensures sent == old(sent) + [ShowStandby]
      ensures !isSynced && staged == if old(isSynced) then None else old(staged)
      ensures preview == PreviewAfterRefresh(staged, old(preview))
    {
      StopLiveSlideshowTimer();
      sent := sent + [ShowStandby];
      live := Standby;
      if isSynced {
        staged := None;
        isSynced := false;
      }
      preview := PreviewAfterRefresh(staged, preview);
    }

    method PauseLiveSlideshow()
      requires Valid()
      modifies this`live, this`activeIntervals
      ensures Valid()
      ensures live == if old(live).Slideshow? then Slideshow(old(live).show.(paused := true, timer := false)) else old(live)
      ensures activeIntervals == 0
    {
      if !live.Slideshow? {
        return;
      }
      live := Slideshow(live.show.(paused := true));
      if live.show.timer {
        activeIntervals := activeIntervals - 1;
        live := Slideshow(live.show.(timer := false));
      }
    }

    method ResumeLiveSlideshow()
      requires Valid()
      modifies this`live, this`activeIntervals
      ensures Valid()
      ensures live == if old(live).Slideshow? then Slideshow(old(live).show.(paused := false, timer := true)) else old(live)
    {
      if !live.Slideshow? {
        return;
      }
      live := Slideshow(live.show.(paused := false));
      StartLiveTimer();
    }

    /** `stopLiveSlideshow`: standby; a synced staged copy is dropped; the sync flag is cleared. */
    method StopLiveSlideshow()
      requires Valid()
      modifies this`live, this`activeIntervals, this`sent, this`staged, this`isSynced, this`preview
      ensures Valid()
      ensures live == Standby && activeIntervals == 0 && !isSynced
      ensures sent == old(sent) + [ShowStandby]
      ensures staged == if old(isSynced) then None else old(staged)
      ensures preview == PreviewAfterRefresh(staged, old(preview))
    {
      StopLiveSlideshowTimer();
      sent := sent + [ShowStandby];
      live := Standby;
      if isSynced {
        staged := None;
      }
      isSynced := false;
      preview := PreviewAfterRefresh(staged, preview);
    }

    // -------------------------------------------------------------------------------------
    // Buttons of the live slideshow transport.

    /** The pause button toggles between paused (no timer) and running (timer armed). */
    method PressLivePause()
      requires Valid()
      modifies this`live, this`activeIntervals
      ensures Valid()
      ensures !old(live).Slideshow? ==> live == old(live)
      ensures old(live).Slideshow? ==>
        && live.Slideshow?
        && live.show.paused == !old(live).show.paused
        && live.show.timer == !live.show.paused
        && activeIntervals == (if live.show.paused then 0 else 1)
        && live.show.(paused := old(live).show.paused, timer := old(live).show.timer) == old(live).show
    {
      if !live.Slideshow? {
        return;
      }
      if live.show.paused {
        ResumeLiveSlideshow();
      } else {
        PauseLiveSlideshow();
      }
    }

    method PressLiveStop()
      requires Valid()
      modifies this`live, this`activeIntervals, this`sent, this`staged, this`isSynced, this`preview
      ensures Valid()
      ensures !old(live).Slideshow? ==> unchanged(this)
      ensures old(live).Slideshow? ==>
        && live == Standby && activeIntervals == 0 && !isSynced
        && sent == old(sent) + [ShowStandby]
        && staged == (if old(isSynced) then None else old(staged))
        && preview == PreviewAfterRefresh(staged, old(preview))
    {
      if !live.Slideshow? {
        return;
      }
      StopLiveSlideshow();
    }

    /**
     * The live prev button: one entry back with wraparound, the entry is shown, a running
     * show's timer restarts, and a synced staged copy follows the live index.
     */
    method PressLivePrev()
      requires Valid()
      modifies this`live, this`activeIntervals, this`sent, this`staged, this`preview
      ensures Valid()
      ensures !old(live).Slideshow? ==> unchanged(this)
      ensures old(live).Slideshow? ==>
        var moved := old(live).show.(index := WrapPrev(old(live).show.index, |old(live).show.queue|));
        var shown := Presented(moved);
        && live == Slideshow(shown.(timer := shown.timer || !shown.paused))
        && sent == old(sent) + SlideMessages(moved)
        && staged == (if isSynced && IsShow(old(staged))
                      then Some(Slideshow(old(staged).value.show.(index := moved.index)))
                      else old(staged))
        && preview == (if isSynced && IsShow(old(staged))
                       then PreviewAfterRefresh(staged,
                              if |moved.queue| > 0 then PreviewAfterRefresh(old(staged), old(preview)) else old(preview))
                       else old(preview))
    {
      if !live.Slideshow? {
        return;
      }
      live := Slideshow(live.show.(index := WrapPrev(live.show.index, |live.show.queue|)));
      ShowCurrentLiveSlide();
      if !live.show.paused {
        ResetLiveTimer();
      }
      FollowLiveIndex();
    }

    /** The live next button, as PressLivePrev one entry forward. */
    method PressLiveNext()
      requires Valid()
      modifies this`live, this`activeIntervals, this`sent, this`staged, this`preview
      ensures Valid()
      ensures !old(live).Slideshow? ==> unchanged(this)
      ensures old(live).Slideshow? ==>
        var moved := old(live).show.(index := WrapNext(old(live).show.index, |old(live).show.queue|));
        var shown := Presented(moved);
        && live == Slideshow(shown.(timer := shown.timer || !shown.paused))
        && sent == old(sent) + SlideMessages(moved)
        && staged == (if isSynced && IsShow(old(staged))
                      then Some(Slideshow(old(staged).value.show.(index := moved.index)))
                      else old(staged))
        && preview == (if isSynced && IsShow(old(staged))
                       then PreviewAfterRefresh(staged,
                              if |moved.queue| > 0 then PreviewAfterRefresh(old(staged), old(preview)) else old(preview))
                       else old(preview))
    {
      if !live.Slideshow? {
        return;
      }
      live := Slideshow(live.show.(index := WrapNext(live.show.index, |live.show.queue|)));
      ShowCurrentLiveSlide();
      if !live.show.paused {
        ResetLiveTimer();
      }
      FollowLiveIndex();
    }

    /** After a live prev or next, a synced staged show takes the live index and the preview is refreshed. */
    method FollowLiveIndex()
      requires LiveValid() && live.Slideshow?
      requires IsShow(staged) ==> IndexOk(staged.value.show) && !staged.value.show.timer
      requires isSynced && IsShow(staged) ==> staged.value.show.queue == live.show.queue
      modifies this`staged, this`preview
      ensures Valid()
      ensures staged == if isSynced && IsShow(old(staged))
                        then Some(Slideshow(old(staged).value.show.(index := live.show.index)))
                        else old(staged)
      ensures preview == if isSynced && IsShow(old(staged)) then PreviewAfterRefresh(staged, old(preview)) else old(preview)
    {
      if isSynced && IsShow(staged) {
        staged := Some(Slideshow(staged.value.show.(index := live.show.index)));
        preview := PreviewAfterRefresh(staged, preview);
      }
    }

    // -------------------------------------------------------------------------------------
    // Buttons of the staged slideshow transport.

    /** The staged prev button: one entry back with wraparound; the staged copy is no longer synced. */
    method PressStagedPrev()
      requires Valid()
      modifies this`staged, this`isSynced, this`preview
      ensures Valid()
      ensures !IsShow(old(staged)) ==> unchanged(this)
      ensures IsShow(old(staged)) ==>
        var s := old(staged).value.show;
        && staged == Some(Slideshow(s.(index := WrapPrev(s.index, |s.queue|))))
        && !isSynced
        && preview == PreviewAfterRefresh(staged, old(preview))
        && ShouldEnableGoLive(staged, live, isSynced)
    {
      if !IsShow(staged) {
        return;
      }
      var s := staged.value.show;
      staged := Some(Slideshow(s.(index := WrapPrev(s.index, |s.queue|))));
      isSynced := false;
      preview := PreviewAfterRefresh(staged, preview);
    }

    method PressStagedNext()
      requires Valid()
      modifies this`staged, this`isSynced, this`preview
      ensures Valid()
      ensures !IsShow(old(staged)) ==> unchanged(this)
      ensures IsShow(old(staged)) ==>
        var s := old(staged).value.show;
        && staged == Some(Slideshow(s.(index := WrapNext(s.index, |s.queue|))))
        && !isSynced
        && preview == PreviewAfterRefresh(staged, old(preview))
        && ShouldEnableGoLive(staged, live, isSynced)
    {
      if !IsShow(staged) {
        return;
      }
      var s := staged.value.show;
      staged := Some(Slideshow(s.(index := WrapNext(s.index, |s.queue|))));
      isSynced := false;
      preview := PreviewAfterRefresh(staged, preview);
    }

    // -------------------------------------------------------------------------------------
    // Staging and publishing.

    /** The standby button: output to standby, nothing staged, nothing synced, no timer. */
    method PressStandby()
      requires Valid()
      modifies this`live, this`activeIntervals, this`sent, this`liveVideoState, this`staged, this`isSynced, this`preview
      ensures Valid()
      ensures live == Standby && staged == None && !isSynced
      ensures activeIntervals == 0 && liveVideoState == None && preview == None
      ensures sent == old(sent) + StopVideoMessages(old(live)) + [ShowStandby]
      ensures !ShouldEnableGoLive(staged, live, isSynced)
    {
      StopLiveSlideshowTimer();
      StopLiveVideo();
      sent := sent + [ShowStandby];
      live := Standby;
      staged := None;
      isSynced := false;
      preview := PreviewAfterRefresh(staged, preview);
    }

    /**
     * Picking a library file stages it as a single image or video, unsynced. A video can
     * then always be published; an image can unless that very image is live.
     */
    method SelectMedia(file: LibraryItem)
      requires Valid()
      modifies this`staged, this`isSynced, this`preview
      ensures Valid()
      ensures var name := OrElse(file.displayName, DefaultDisplayName(file.path));
        staged == Some(if file.isVideo then SingleVideo(file.path, name, 0.0, 0.0) else SingleImage(file.path, name))
      ensures !isSynced
      ensures preview == PreviewAfterRefresh(staged, old(preview))
      ensures ShouldEnableGoLive(staged, live, isSynced) <==>
        file.isVideo || !(live.SingleImage? && live.path == file.path)
    {
      var displayName := OrElse(file.displayName, DefaultDisplayName(file.path));
      var c := if file.isVideo then CreateSingleVideo(file.path, displayName, 0.0)
               else CreateSingleImage(file.path, displayName);
      StageMedia(c);
    }

    /** Stages a single image or video; publishing it is offered unless that image is live. */
    method StageMedia(c: Content)
      requires Valid() && (c.SingleImage? || c.SingleVideo?)
      modifies this`staged, this`isSynced, this`preview
      ensures Valid()
      ensures staged == Some(c) && !isSynced
      ensures preview == PreviewAfterRefresh(staged, old(preview))
      ensures ShouldEnableGoLive(staged, live, isSynced) <==> c.SingleVideo? || !(live.SingleImage? && live.path == c.path)
    {
      Stage(c);
    }

    /** The clear button: nothing staged; publishing then means returning to standby. */
    method ClearStaged()
      requires Valid()
      modifies this`staged, this`isSynced, this`preview
      ensures Valid()
      ensures staged == None && !isSynced && preview == None
      ensures ShouldEnableGoLive(staged, live, isSynced) <==> !live.Standby?
    {
      staged := None;
      isSynced := false;
      preview := None;
      preview := PreviewAfterRefresh(staged, preview);
    }

    /**
     * The go-live button. Nothing staged puts the output on standby; an image goes live
     * unsynced; a video goes live synced from its staged time; a slideshow is pushed with
     * its pending edits folded in. Afterwards the action is not offered again.
     */
    method PressGoLive()
      requires Valid()
      modifies this`live, this`activeIntervals, this`sent, this`liveVideoState, this`staged, this`isSynced, this`preview
      ensures Valid()
      ensures old(staged) == Some(Standby) ==> unchanged(this)
      ensures old(staged).None? ==>
        && live == Standby && staged == None && isSynced == old(isSynced)
        && activeIntervals == 0 && liveVideoState == None && preview == old(preview)
        && sent == old(sent) + StopVideoMessages(old(live)) + [ShowStandby]
      ensures IsImage(old(staged)) ==>
        && live == old(staged).value && staged == old(staged) && !isSynced
        && activeIntervals == 0 && liveVideoState == None && preview == old(preview)
        && sent == old(sent) + StopVideoMessages(old(live)) + [ShowImage(old(staged).value.path)]
      ensures IsVideo(old(staged)) ==>
        && live == old(staged).value && staged == old(staged) && isSynced
        && activeIntervals == 0 && liveVideoState == None && preview == old(preview)
        && sent == old(sent) + StopVideoMessages(old(live))
                  + [ShowVideo(old(staged).value.path, old(staged).value.currentTime)]
      ensures IsShow(old(staged)) ==>
        && staged == Some(Slideshow(ApplyPendingChanges(old(staged).value.show)))
        && isSynced && live.Slideshow? && live.show.timer && activeIntervals == 1
        && live.show.queue == staged.value.show.queue && live.show.index == staged.value.show.index
        && live == Slideshow(Presented(CreateLiveSlideshow(staged.value.show)).(timer := true))
        && sent == old(sent) + [SetTransition(staged.value.show.transition)]
                   + SlideMessages(CreateLiveSlideshow(staged.value.show))
        && preview == (if |staged.value.show.queue| > 0 then PreviewAfterRefresh(staged, old(preview)) else old(preview))
        && liveVideoState == old(liveVideoState)
      ensures old(staged) != Some(Standby) ==> !ShouldEnableGoLive(staged, live, isSynced)
    {
      if staged.None? {
        StopLiveSlideshowTimer();
        StopLiveVideo();
        sent := sent + [ShowStandby];
        live := Standby;
        return;
      }
      var c := staged.value;
      match c
      case SingleImage(p, _) =>
        StopLiveSlideshowTimer();
        StopLiveVideo();
        sent := sent + [ShowImage(p)];
        live := c;
        isSynced := false;
      case SingleVideo(p, _, t, _) =>
        StopLiveSlideshowTimer();
        StopLiveVideo();
        sent := sent + [ShowVideo(p, t)];
        live := c;
        isSynced := true;
      case Slideshow(_) =>
        PushSlideshowLive();
      case Standby =>
    }

    /**
     * `pushSlideshowLive`: the pending edits are reconciled, the live show becomes a copy
     * of the staged one, synced, its transition is announced, its entry shown and its
     * timer armed.
     */
    method PushSlideshowLive()
      requires Valid() && IsShow(staged)
      modifies this`live, this`activeIntervals, this`sent, this`staged, this`isSynced, this`preview
      ensures Valid() && isSynced
      ensures staged == Some(Slideshow(ApplyPendingChanges(old(staged).value.show)))
      ensures var shown := Presented(CreateLiveSlideshow(staged.value.show));
        live == Slideshow(shown.(timer := true))
      ensures sent == old(sent) + [SetTransition(staged.value.show.transition)]
                      + SlideMessages(CreateLiveSlideshow(staged.value.show))
      ensures preview == if |staged.value.show.queue| > 0 then PreviewAfterRefresh(staged, old(preview)) else old(preview)
      ensures !ShouldEnableGoLive(staged, live, isSynced)
    {
      StopLiveSlideshowTimer();
      ApplyPendingQueueChanges();
      live := Slideshow(CreateLiveSlideshow(staged.value.show));
      isSynced := true;
      sent := sent + [SetTransition(live.show.transition)];
      ShowCurrentLiveSlide();
      StartLiveTimer();
    }

    /**
     * `applyPendingQueueChanges`: the staged show's pending adds and removes are folded
     * into its queue and the index is pulled back inside it.
     */
    method ApplyPendingQueueChanges()
      modifies this`staged
      ensures staged == if IsShow(old(staged)) then Some(Slideshow(ApplyPendingChanges(old(staged).value.show)))
                        else old(staged)
    {
      if !IsShow(staged) {
        return;
      }
      var s := staged.value.show;
      var q := MergePendingAdds(s.queue, s.pendingAdds);
      q := DropPendingRemoves(q, s.pendingRemoves);
      var index := s.index;
      if index >= |q| {
        index := if |q| - 1 > 0 then |q| - 1 else 0;
      }
      staged := Some(Slideshow(s.(queue := q, index := index, pendingAdds := [], pendingRemoves := [])));
    }

    // -------------------------------------------------------------------------------------
    // The video transports.

    /** `stopLiveVideo`. */
    method StopLiveVideo()
      requires Valid()
      modifies this`sent, this`liveVideoState
      ensures Valid()
      ensures sent == old(sent) + StopVideoMessages(live)
      ensures liveVideoState == None
    {
      if live.SingleVideo? {
        sent := sent + [ControlVideo(Stop)];
      }
      liveVideoState := None;
    }

    /** The preview play button: playing the preview desynchronises it from a live video. */
    method PressPreviewPlay()
      requires Valid()
      modifies this`preview, this`isSynced
      ensures Valid()
      ensures old(preview).None? ==> unchanged(this)
      ensures old(preview).Some? ==>
        && preview == Some(old(preview).value.(paused := !old(preview).value.paused))
        && isSynced == (old(isSynced) && !live.SingleVideo?)
    {
      if preview.None? {
        return;
      }
      preview := Some(preview.value.(paused := !preview.value.paused));
      if live.SingleVideo? {
        isSynced := false;
      }
    }

    /**
     * The preview slider, at `sliderValue` percent of a known duration: the staged video
     * takes the new time and is no longer synced.
     */
    method SeekPreview(sliderValue: real)
      requires Valid()
      modifies this`preview, this`staged, this`isSynced
      ensures Valid()
      ensures old(preview).None? || old(preview).value.duration == 0.0 ==> unchanged(this)
      ensures old(preview).Some? && old(preview).value.duration != 0.0 ==>
        var time := sliderValue / 100.0 * old(preview).value.duration;
        && preview == Some(old(preview).value.(currentTime := time))
        && staged == (if IsVideo(old(staged)) then Some(old(staged).value.(currentTime := time)) else old(staged))
        && isSynced == (old(isSynced) && !IsVideo(old(staged)))
    {
      if preview.None? || preview.value.duration == 0.0 {
        return;
      }
      var time := sliderValue / 100.0 * preview.value.duration;
      preview := Some(preview.value.(currentTime := time));
      if IsVideo(staged) {
        staged := Some(staged.value.(currentTime := time));
        isSynced := false;
      }
    }

    /** The live play button: play when the last report says paused, else pause; a synced preview follows. */
    method PressLivePlay()
      requires Valid()
      modifies this`sent, this`preview
      ensures Valid()
      ensures !live.SingleVideo? ==> unchanged(this)
      ensures live.SingleVideo? ==>
        var resume := liveVideoState.Some? && liveVideoState.value.paused;
        && sent == old(sent) + [ControlVideo(if resume then Play else Pause)]
        && preview == (if isSynced && IsVideo(staged) && old(preview).Some?
                       then Some(old(preview).value.(paused := !resume)) else old(preview))
    {
      if !live.SingleVideo? {
        return;
      }
      if liveVideoState.Some? && liveVideoState.value.paused {
        sent := sent + [ControlVideo(Play)];
        if isSynced && IsVideo(staged) && preview.Some? {
          preview := Some(preview.value.(paused := false));
        }
      } else {
        sent := sent + [ControlVideo(Pause)];
        if isSynced && IsVideo(staged) && preview.Some? {
          preview := Some(preview.value.(paused := true));
        }
      }
    }

    /** The live restart button; a synced preview and staged copy go back to the start and play. */
    method PressLiveRestart()
      requires Valid()
      modifies this`sent, this`preview, this`staged
      ensures Valid()
      ensures !live.SingleVideo? ==> unchanged(this)
      ensures live.SingleVideo? ==>
        && sent == old(sent) + [ControlVideo(Restart)]
        && (isSynced && IsVideo(old(staged)) && old(preview).Some? ==>
              && preview == Some(old(preview).value.(currentTime := 0.0, paused := false))
              && staged == Some(old(staged).value.(currentTime := 0.0)))
        && (!(isSynced && IsVideo(old(staged)) && old(preview).Some?) ==>
              preview == old(preview) && staged == old(staged))
    {
      if !live.SingleVideo? {
        return;
      }
      sent := sent + [ControlVideo(Restart)];
      if isSynced && IsVideo(staged) && preview.Some? {
        preview := Some(preview.value.(currentTime := 0.0));
        staged := Some(staged.value.(currentTime := 0.0));
        preview := Some(preview.value.(paused := false));
      }
    }

    /** The live video stop button: standby; a synced staged copy and its preview are dropped. */
    method PressLiveVideoStop()
      requires Valid()
      modifies this`sent, this`liveVideoState, this`live, this`isSynced, this`staged, this`preview
      ensures Valid()
      ensures !old(live).SingleVideo? ==> unchanged(this)
      ensures old(live).SingleVideo? ==>
        && live == Standby && !isSynced && liveVideoState == None
        && sent == old(sent) + [ControlVideo(Stop), ShowStandby]
        && staged == (if old(isSynced) then None else old(staged))
        && preview == (if old(isSynced) then None else old(preview))
    {
      if !live.SingleVideo? {
        return;
      }
      var wasSynced := isSynced;
      StopLiveVideo();
      sent := sent + [ShowStandby];
      live := Standby;
      isSynced := false;
      if wasSynced {
        staged := None;
        preview := None;
        preview := PreviewAfterRefresh(staged, preview);
      }
    }

    /** The live slider, at `sliderValue` percent of the reported duration; a synced preview follows. */
    method SeekLive(sliderValue: real)
      requires Valid()
      modifies this`sent, this`preview, this`staged
      ensures Valid()
      ensures !live.SingleVideo? || liveVideoState.None? || liveVideoState.value.duration == 0.0 ==> unchanged(this)
      ensures live.SingleVideo? && liveVideoState.Some? && liveVideoState.value.duration != 0.0 ==>
        var time := sliderValue / 100.0 * old(liveVideoState).value.duration;
        && sent == old(sent) + [ControlVideo(Seek(time))]
        && (isSynced && IsVideo(old(staged)) && old(preview).Some? ==>
              && preview == Some(old(preview).value.(currentTime := time))
              && staged == Some(old(staged).value.(currentTime := time)))
        && (!(isSynced && IsVideo(old(staged)) && old(preview).Some?) ==>
              preview == old(preview) && staged == old(staged))
    {
      if !live.SingleVideo? || liveVideoState.None? || liveVideoState.value.duration == 0.0 {
        return;
      }
      var time := sliderValue / 100.0 * liveVideoState.value.duration;
      sent := sent + [ControlVideo(Seek(time))];
      if isSynced && IsVideo(staged) && preview.Some? {
        preview := Some(preview.value.(currentTime := time));
        staged := Some(staged.value.(currentTime := time));
      }
    }

    /**
     * A transport report from the output window. Reports are ignored unless a single video
     * is live; a stop report for the live file returns the live register to standby (the
     * sync flag is left as it is); any other report is stored and, when synced, mirrored
     * into the preview and the staged time. The source's `ended` branch for a slideshow
     * waiting on a video sits behind the single-video guard and can never run; it has no
     * counterpart here.
     */
    method OnVideoState(state: VideoState)
      requires Valid()
      modifies this`live, this`liveVideoState, this`preview, this`staged
      ensures Valid()
      ensures !old(live).SingleVideo? ==> unchanged(this)
      ensures old(live).SingleVideo? && state.stopped ==>
        && live == (if old(live).path == state.path then Standby else old(live))
        && liveVideoState == old(liveVideoState) && preview == old(preview) && staged == old(staged)
      ensures old(live).SingleVideo? && !state.stopped ==>
        && live == old(live) && liveVideoState == Some(state)
        && (isSynced && IsVideo(old(staged)) && old(preview).Some? ==>
              && preview == Some(Mirrored(old(preview).value, state))
              && staged == (if state.playing then Some(old(staged).value.(currentTime := state.currentTime))
                            else old(staged)))
        && (!(isSynced && IsVideo(old(staged)) && old(preview).Some?) ==>
              preview == old(preview) && staged == old(staged))
    {
      if !live.SingleVideo? {
        return;
      }
      if state.stopped {
        if live.path == state.path {
          live := Standby;
        }
        return;
      }
      liveVideoState := Some(state);
      if isSynced && IsVideo(staged) && preview.Some? {
        if state.playing && preview.value.paused {
          preview := Some(preview.value.(paused := false));
        } else if state.paused && !preview.value.paused {
          preview := Some(preview.value.(paused := true));
        }
        if state.playing {
          preview := Some(preview.value.(currentTime := state.currentTime));
          staged := Some(staged.value.(currentTime := state.currentTime));
        }
      }
    }

    /** The preview element's `loadedmetadata` event: a staged video learns its duration. */
    method OnPreviewMetadata(duration: real)
      requires Valid()
      modifies this`preview, this`staged
      ensures Valid()
      ensures old(preview).None? ==> unchanged(this)
      ensures old(preview).Some? ==>
        && preview == Some(old(preview).value.(duration := duration))
        && staged == (if IsVideo(old(staged)) then Some(old(staged).value.(duration := duration)) else old(staged))
    {
      if preview.None? {
        return;
      }
      preview := Some(preview.value.(duration := duration));
      if IsVideo(staged) {
        staged := Some(staged.value.(duration := duration));
      }
    }

    /** The preview element's `timeupdate` event: a staged video follows the preview's time. */
    method OnPreviewTimeUpdate(time: real)
      requires Valid()
      modifies this`preview, this`staged
      ensures Valid()
      ensures old(preview).None? ==> unchanged(this)
      ensures old(preview).Some? ==>
        && preview == Some(old(preview).value.(currentTime := time))
        && staged == (if IsVideo(old(staged)) then Some(old(staged).value.(currentTime := time)) else old(staged))
    {
      if preview.None? {
        return;
      }
      preview := Some(preview.value.(currentTime := time));
      if IsVideo(staged) {
        staged := Some(staged.value.(currentTime := time));
      }
    }

    // -------------------------------------------------------------------------------------
    // Editing the staged queue.

    /**
     * The remove button of a queue entry. A pending add is simply withdrawn. While a
     * slideshow is live the path is only marked for removal, once, and the queue is left
     * alone. Otherwise the entry is taken out, the index pulled back inside the queue, and
     * a show left empty is unstaged.
     */
    method RemoveQueueItem(path: string, isPendingAdd: bool)
      requires Valid()
      modifies this`staged, this`preview
      ensures Valid()
      ensures preview == PreviewAfterRefresh(staged, old(preview))
      ensures !IsShow(old(staged)) ==> staged == old(staged)
      ensures IsShow(old(staged)) && isPendingAdd ==>
        var s := old(staged).value.show;
        staged == Some(Slideshow(s.(pendingAdds := RemoveFirst(s.pendingAdds, path))))
      ensures IsShow(old(staged)) && !isPendingAdd && live.Slideshow? ==>
        var s := old(staged).value.show;
        && staged == Some(Slideshow(s.(pendingRemoves := if path in s.pendingRemoves then s.pendingRemoves
                                                         else s.pendingRemoves + [path])))
        && path in staged.value.show.pendingRemoves
      ensures IsShow(old(staged)) && !isPendingAdd && !live.Slideshow? ==>
        var s := old(staged).value.show;
        var q := RemoveFirst(s.queue, path);
        staged == if q == [] then None else Some(Slideshow(s.(queue := q, index := ClampIndex(s.index, |q|))))
    {
      if isPendingAdd {
        WithdrawPendingAdd(path);
      } else if live.Slideshow? {
        MarkForRemoval(path);
      } else {
        RemoveFromQueue(path);
      }
      preview := PreviewAfterRefresh(staged, preview);
    }

    /** A pending add is taken back: the first pending add with the path is cut out. */
    method WithdrawPendingAdd(path: string)
      requires Valid()
      modifies this`staged
      ensures Valid()
      ensures !IsShow(old(staged)) ==> staged == old(staged)
      ensures IsShow(old(staged)) ==>
        var s := old(staged).value.show;
        staged == Some(Slideshow(s.(pendingAdds := RemoveFirst(s.pendingAdds, path))))
    {
      if IsShow(staged) {
        var s := staged.value.show;
        var idx := FindIndex(s.pendingAdds, path);
        FoundIffHasPath(s.pendingAdds, path);
        if idx >= 0 {
          staged := Some(Slideshow(s.(pendingAdds := s.pendingAdds[..idx] + s.pendingAdds[idx + 1..])));
        }
      }
    }

    /** While a show is live, a listed entry is only marked for removal, once. */
    method MarkForRemoval(path: string)
      requires Valid() && live.Slideshow?
      modifies this`staged
      ensures Valid()
      ensures !IsShow(old(staged)) ==> staged == old(staged)
      ensures IsShow(old(staged)) ==>
        var s := old(staged).value.show;
        && staged == Some(Slideshow(s.(pendingRemoves := if path in s.pendingRemoves then s.pendingRemoves
                                                         else s.pendingRemoves + [path])))
        && path in staged.value.show.pendingRemoves
    {
      if IsShow(staged) && path !in staged.value.show.pendingRemoves {
        var s := staged.value.show;
        staged := Some(Slideshow(s.(pendingRemoves := s.pendingRemoves + [path])));
      }
    }

    /** With no show live, the entry leaves the queue at once; an emptied show is unstaged. */
    method RemoveFromQueue(path: string)
      requires Valid() && !live.Slideshow?
      modifies this`staged
      ensures Valid()
      ensures !IsShow(old(staged)) ==> staged == old(staged)
      ensures IsShow(old(staged)) ==>
        var s := old(staged).value.show;
        var q := RemoveFirst(s.queue, path);
        staged == if q == [] then None else Some(Slideshow(s.(queue := q, index := ClampIndex(s.index, |q|))))
    {
      if IsShow(staged) {
        var s := staged.value.show;
        var idx := FindIndex(s.queue, path);
        FoundIffHasPath(s.queue, path);
        if idx >= 0 {
          var q := s.queue[..idx] + s.queue[idx + 1..];
          assert q == RemoveFirst(s.queue, path);
          var index := s.index;
          if index >= |q| {
            index := if |q| - 1 > 0 then |q| - 1 else 0;
          }
          assert index == ClampIndex(s.index, |q|);
          s := s.(queue := q, index := index);
          staged := Some(Slideshow(s));
        }
        if |s.queue| == 0 {
          staged := None;
        }
      }
    }

    /**
     * The confirm button of the media picker: each selected library path is added to the
     * staged show, as a pending add while a slideshow is live (AddSelected states what
     * happens to each path).
     */
    method ConfirmAddMedia(selected: seq<string>, library: seq<LibraryItem>, freshId: string)
      requires Valid()
      modifies this`staged, this`preview
      ensures Valid()
      ensures staged == AddSelected(old(staged), AddContext(library, live.Slideshow?, currentPreset, queued, freshId), selected)
      ensures preview == PreviewAfterRefresh(staged, old(preview))
    {
      ghost var ctx := AddContext(library, live.Slideshow?, currentPreset, queued, freshId);
      var i := 0;
      while i < |selected|
        invariant 0 <= i <= |selected|
        invariant Valid() && preview == old(preview)
        invariant AddSelected(staged, ctx, selected[i..]) == AddSelected(old(staged), ctx, selected)
      {
        assert selected[i..][1..] == selected[i + 1..];
        var p := selected[i];
        var item := FindLibraryItem(library, p);
        if item.Some? {
          var e := NewEntry(item.value);
          if live.Slideshow? {
            if IsShow(staged) {
              var s := staged.value.show;
              if !HasPath(s.queue, p) && !HasPath(s.pendingAdds, p) {
                staged := Some(Slideshow(s.(pendingAdds := s.pendingAdds + [e])));
              }
            }
          } else if IsShow(staged) {
            var s := staged.value.show;
            if !HasPath(s.queue, p) {
              staged := Some(Slideshow(s.(queue := s.queue + [e])));
            }
          } else {
            var q := StagedQueue(staged, currentPreset);
            if !HasPath(q, p) {
              q := q + [e];
            }
            staged := Some(Slideshow(CreateSlideshow(PresetId(currentPreset), freshId, q, 0,
                                                     queued.interval, queued.loop, queued.transition)));
          }
        }
        i := i + 1;
      }
      preview := PreviewAfterRefresh(staged, preview);
    }

    /**
     * Dropping the dragged entry `from` on entry `to` moves it there. Entries can only be
     * dragged while no slideshow is live, and both indices are positions of the listed queue.
     */
    method DropQueueEntry(from: nat, to: nat)
      requires Valid() && !live.Slideshow?
      requires from < |StagedQueue(staged, currentPreset)| && to < |StagedQueue(staged, currentPreset)|
      modifies this`staged
      ensures Valid()
      ensures from != to && IsShow(old(staged)) ==>
        var s := old(staged).value.show;
        && staged == Some(Slideshow(s.(queue := Move(s.queue, from, to))))
        && multiset(staged.value.show.queue) == multiset(s.queue)
        && staged.value.show.queue[to] == s.queue[from]
      ensures from == to || !IsShow(old(staged)) ==> staged == old(staged)
    {
      if from != to && IsShow(staged) {
        var s := staged.value.show;
        staged := Some(Slideshow(s.(queue := Move(s.queue, from, to))));
      }
    }

    /**
     * Clicking a listed entry (not one pending add or removal) stages the show on it,
     * creating the staged show from the preset's images when none is staged.
     */
    method ClickQueueEntry(index: nat, freshId: string)
      requires Valid()
      requires index < |StagedQueue(staged, currentPreset)|
      requires IsShow(staged) ==> staged.value.show.queue[index].path !in staged.value.show.pendingRemoves
      modifies this`staged, this`isSynced, this`preview
      ensures Valid()
      ensures IsShow(staged) && staged.value.show.index == index && !isSynced
      ensures IsShow(old(staged)) ==> staged == Some(Slideshow(old(staged).value.show.(index := index)))
      ensures !IsShow(old(staged)) ==>
        staged == Some(Slideshow(CreateSlideshow(PresetId(currentPreset), freshId, PresetQueue(currentPreset),
                                                 index, queued.interval, queued.loop, queued.transition)))
      ensures preview == PreviewAfterRefresh(staged, old(preview))
    {
      if !IsShow(staged) {
        var q := PresetQueue(currentPreset);
        Stage(Slideshow(CreateSlideshow(PresetId(currentPreset), freshId, q, index,
                                        queued.interval, queued.loop, queued.transition)));
      } else {
        Stage(Slideshow(staged.value.show.(index := index)));
      }
    }

    /** Stages `c`, not synced, and refreshes the preview. */
    method Stage(c: Content)
      requires Valid()
      requires c.Slideshow? ==> IndexOk(c.show) && !c.show.timer
      modifies this`staged, this`isSynced, this`preview
      ensures Valid()
      ensures staged == Some(c) && !isSynced
      ensures preview == PreviewAfterRefresh(staged, old(preview))
    {
      staged := Some(c);
      isSynced := false;
      preview := PreviewAfterRefresh(staged, preview);
    }

    /**
     * The queue button: a new staged show, on its first entry, from the listed queue with
     * the pending edits folded in and the queued settings; nothing happens for an empty queue.
     */
    method PressQueueSlideshow(freshId: string)
      requires Valid()
      modifies this`staged, this`isSynced, this`preview
      ensures Valid()
      ensures var q := if IsShow(old(staged))
                       then ApplyPendingChanges(old(staged).value.show).queue
                       else PresetQueue(currentPreset);
        && (q == [] ==> unchanged(this))
        && (q != [] ==>
              && staged == Some(Slideshow(CreateSlideshow(PresetId(currentPreset), freshId, q, 0,
                                                          queued.interval, queued.loop, queued.transition)))
              && !isSynced
              && preview == PreviewAfterRefresh(staged, old(preview))
              && ShouldEnableGoLive(staged, live, isSynced))
    {
      var queue := StagedQueue(staged, currentPreset);
      if IsShow(staged) {
        queue := MergePendingAdds(queue, staged.value.show.pendingAdds);
        queue := DropPendingRemoves(queue, staged.value.show.pendingRemoves);
      }
      if |queue| == 0 {
        return;
      }
      Stage(Slideshow(CreateSlideshow(PresetId(currentPreset), freshId, queue, 0,
                                      queued.interval, queued.loop, queued.transition)));
    }

    /**
     * The preset selector. A preset id makes that preset current and loads its settings
     * (announcing its transition unless a slideshow is live); the empty choice forgets the
     * preset, unstages and restores the default settings. Either way nothing is synced.
     */
    method SelectPreset(presets: seq<Preset>, presetId: string)
      requires Valid()
      modifies this`currentPreset, this`queued, this`sent, this`staged, this`isSynced, this`preview
      ensures Valid()
      ensures !isSynced
      ensures presetId != "" ==>
        && currentPreset == FindPreset(presets, presetId)
        && staged == old(staged) && preview == old(preview)
        && (currentPreset.Some? ==>
              && queued == currentPreset.value.settings
              && sent == old(sent) + (if live.Slideshow? then [] else [SetTransition(queued.transition)]))
        && (currentPreset.None? ==> queued == old(queued) && sent == old(sent))
      ensures presetId == "" ==>
        && currentPreset == None && staged == None && preview == None
        && queued == DefaultSettings && sent == old(sent)
    {
      if presetId != "" {
        currentPreset := FindPreset(presets, presetId);
        if currentPreset.Some? {
          queued := currentPreset.value.settings;
          if !live.Slideshow? {
            sent := sent + [SetTransition(queued.transition)];
          }
        }
      } else {
        currentPreset := None;
        staged := None;
        queued := DefaultSettings;
        preview := PreviewAfterRefresh(staged, preview);
      }
      isSynced := false;
    }
  }

  // ---------------------------------------------------------------------------------------
  // What confirming the media picker does to the staged content.

  /** What the picker's confirm handler reads besides the staged content. */
  datatype AddContext = AddContext(
    library: seq<LibraryItem>,
    liveIsShow: bool,
    preset: Option<Preset>,
    settings: ShowSettings,
    freshId: string)

  /** The queue entry made from a library file. */
  function NewEntry(item: LibraryItem): QueueEntry {
    QueueEntry(item.path, OrElse(item.displayName, item.name), item.isVideo)
  }

  /** One selected path. Paths not in the library and paths already listed are skipped. */
  function AddOne(staged: Option<Content>, ctx: AddContext, p: string): Option<Content> {
    match FindLibraryItem(ctx.library, p)
    case None => staged
    case Some(item) =>
      var e := NewEntry(item);
      if ctx.liveIsShow then
        if IsShow(staged) && !HasPath(staged.value.show.queue, p) && !HasPath(staged.value.show.pendingAdds, p)
        then Some(Slideshow(staged.value.show.(pendingAdds := staged.value.show.pendingAdds + [e])))
        else staged
      else if IsShow(staged) then
        if HasPath(staged.value.show.queue, p) then staged
        else Some(Slideshow(staged.value.show.(queue := staged.value.show.queue + [e])))
      else
        var q := PresetQueue(ctx.preset);
        Some(Slideshow(CreateSlideshow(PresetId(ctx.preset), ctx.freshId, if HasPath(q, p) then q else q + [e], 0,
                                       ctx.settings.interval, ctx.settings.loop, ctx.settings.transition)))
  }

  /** All selected paths, in order. */
  function AddSelected(staged: Option<Content>, ctx: AddContext, paths: seq<string>): Option<Content>
    decreases |paths|
  {
    if paths == [] then staged else AddSelected(AddOne(staged, ctx, paths[0]), ctx, paths[1..])
  }

  lemma HasPathAppended(q: seq<QueueEntry>, e: QueueEntry)
    ensures HasPath(q + [e], e.path)
  {
    assert (q + [e])[|q|] == e;
  }

  lemma HasPathInPrefix(q: seq<QueueEntry>, r: seq<QueueEntry>, p: string)
    requires q <= r && HasPath(q, p)
    ensures HasPath(r, p)
  {
    var i :| 0 <= i < |q| && q[i].path == p;
    assert r[i] == q[i];
  }

  /**
   * While a slideshow is live, confirming the picker leaves the staged queue alone: a
   * staged show only gains pending adds, each for a path that was not listed, and every
   * selected library path ends up listed or pending. Without a staged show nothing happens.
   */
  lemma {:induction false} AddWhileLive(staged: Option<Content>, ctx: AddContext, paths: seq<string>)
    requires ctx.liveIsShow
    ensures var r := AddSelected(staged, ctx, paths);
      && (!IsShow(staged) ==> r == staged)
      && (IsShow(staged) ==>
            var s := staged.value.show;
            && IsShow(r)
            && r.value.show.(pendingAdds := s.pendingAdds) == s
            && s.pendingAdds <= r.value.show.pendingAdds
            && (forall k :: |s.pendingAdds| <= k < |r.value.show.pendingAdds| ==>
                  !HasPath(s.queue, r.value.show.pendingAdds[k].path))
            && (forall p :: p in paths && FindLibraryItem(ctx.library, p).Some? ==>
                  HasPath(s.queue, p) || HasPath(r.value.show.pendingAdds, p)))
    decreases |paths|
  {
    if paths != [] && IsShow(staged) {
      var s := staged.value.show;
      var a := AddOne(staged, ctx, paths[0]);
      AddWhileLive(a, ctx, paths[1..]);
      var r := AddSelected(a, ctx, paths[1..]);
      assert a.value.show.queue == s.queue;
      forall p | p in paths && FindLibraryItem(ctx.library, p).Some?
        ensures HasPath(s.queue, p) || HasPath(r.value.show.pendingAdds, p)
      {
        if p != paths[0] {
          assert p in paths[1..];
        } else if !HasPath(s.queue, p) {
          if !HasPath(s.pendingAdds, p) {
            HasPathAppended(s.pendingAdds, NewEntry(FindLibraryItem(ctx.library, p).value));
          }
          assert HasPath(a.value.show.pendingAdds, p);
          HasPathInPrefix(a.value.show.pendingAdds, r.value.show.pendingAdds, p);
        }
      }
    } else if paths != [] {
      AddWhileLive(staged, ctx, paths[1..]);
    }
  }

  /**
   * With no slideshow live, every selected library path ends up in the staged queue; a
   * staged show only gains entries at the end, and a queue without duplicate paths stays
   * without. Nothing is staged when no selected path is in the library.
   */
  lemma {:induction false} AddWhileNotLive(staged: Option<Content>, ctx: AddContext, paths: seq<string>)
    requires !ctx.liveIsShow
    ensures var r := AddSelected(staged, ctx, paths);
      && (IsShow(staged) ==>
            var s := staged.value.show;
            && IsShow(r)
            && r.value.show.(queue := s.queue) == s
            && s.queue <= r.value.show.queue
            && (UniquePaths(s.queue) ==> UniquePaths(r.value.show.queue)))
      && (forall p :: p in paths && FindLibraryItem(ctx.library, p).Some? ==>
            IsShow(r) && HasPath(r.value.show.queue, p))
      && ((forall p :: p in paths ==> FindLibraryItem(ctx.library, p).None?) ==> r == staged)
    decreases |paths|
  {
    if paths != [] {
      var a := AddOne(staged, ctx, paths[0]);
      AddOneNotLive(staged, ctx, paths[0]);
      AddWhileNotLive(a, ctx, paths[1..]);
      var r := AddSelected(a, ctx, paths[1..]);
      forall p | p in paths && FindLibraryItem(ctx.library, p).Some?
        ensures IsShow(r) && HasPath(r.value.show.queue, p)
      {
        if p != paths[0] {
          assert p in paths[1..];
        } else {
          HasPathInPrefix(a.value.show.queue, r.value.show.queue, p);
        }
      }
      if forall p :: p in paths ==> FindLibraryItem(ctx.library, p).None? {
        assert paths[0] in paths;
        assert forall p :: p in paths[1..] ==> p in paths;
      }
    }
  }

  /** One selected path with no slideshow live: a found file is listed afterwards; a staged show only grows at the end. */
  lemma AddOneNotLive(staged: Option<Content>, ctx: AddContext, p: string)
    requires !ctx.liveIsShow
    ensures var a := AddOne(staged, ctx, p);
      && (IsShow(staged) ==>
            var s := staged.value.show;
            && IsShow(a)
            && a.value.show.(queue := s.queue) == s
            && s.queue <= a.value.show.queue
            && (UniquePaths(s.queue) ==> UniquePaths(a.value.show.queue)))
      && (FindLibraryItem(ctx.library, p).Some? ==> IsShow(a) && HasPath(a.value.show.queue, p))
      && (FindLibraryItem(ctx.library, p).None? ==> a == staged)
  {
    var a := AddOne(staged, ctx, p);
    if FindLibraryItem(ctx.library, p).Some? {
      var e := NewEntry(FindLibraryItem(ctx.library, p).value);
      var q := StagedQueue(staged, ctx.preset);
      HasPathAppended(q, e);
      if IsShow(staged) && UniquePaths(q) && !HasPath(q, p) {
        assert UniquePaths(q + [e]);
      }
    }
  }

  // ---------------------------------------------------------------------------------------
  // The prev button on an empty queue.

  /**
   * As written, the prev step leaves index -1 on an empty queue. A show pushed live with
   * every entry pending removal has an empty queue at index 0; live prev sets -1, which the
   * synced staged copy takes over. An entry added while live fills the queue, a preset
   * choice drops the sync, and the reconciliation of the next push clamps the index only
   * from above: the pushed show has a non-empty queue and no current entry, so
   * `showCurrentLiveSlide` reads `queue[-1]`.
   */
  lemma EmptyQueuePrevAsWritten(a: QueueEntry, e: QueueEntry)
    ensures var s := Show("show", [a], 0, DefaultInterval, true, DefaultTransition, [], [a.path], false, false, false);
      var first := ApplyPendingChanges(s);
      var prev := first.(index := WrapPrevAsWritten(first.index, |first.queue|));
      var pushed := ApplyPendingChanges(prev.(pendingAdds := [e]));
      && IndexOk(s) && first.queue == [] && IndexOk(first)
      && prev.index == -1
      && pushed.queue == [e] && pushed.index == -1
      && CurrentEntry(CreateLiveSlideshow(pushed)).None?
  {
    assert FirstIndexOf([a], a.path) == 0;
    assert RemoveFirst([a], a.path) == [];
    assert RemoveEach([a], [a.path]) == RemoveEach([], []) == [];
    assert AppendMissing([a], []) == [a];
    assert !HasPath([], e.path);
    assert AppendMissing([], [e]) == AppendMissing([e], []) == [e];
  }

  /**
   * With the prev step kept at 0 on an empty queue, any show that is prev'd and then
   * reconciled keeps a current entry whenever its queue is non-empty.
   */
  lemma EmptyQueuePrevCorrected(s: Show)
    requires IndexOk(s)
    ensures var moved := s.(index := WrapPrev(s.index, |s.queue|));
      var pushed := ApplyPendingChanges(moved);
      && IndexOk(moved) && IndexOk(pushed)
      && (|pushed.queue| > 0 ==> CurrentEntry(CreateLiveSlideshow(pushed)).Some?)
  {
  }
}
