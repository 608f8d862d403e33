/**
 * The go-live decision (`shouldEnableGoLive`, src/control/control.js:292-325): whether the
 * publish action is offered for the staged content, given what is live and the sync flag.
 */
module GoLive {
  import opened Wrappers
  import opened Content

  /** What the output surface shows for a piece of content, as far as the decision compares it. */
  datatype Output = StandbyOutput | ImageOutput(path: string) | VideoOutput(path: string) | SlideshowOutput

  function OutputOf(c: Option<Content>): Output {
    if c.None? then StandbyOutput
    else match c.value
      case Standby => StandbyOutput
      case SingleImage(p, _) => ImageOutput(p)
      case SingleVideo(p, _, _, _) => VideoOutput(p)
      case Slideshow(_) => SlideshowOutput
  }

  /** Content that keeps playing once published and is therefore tracked by the sync flag. */
  predicate IsContinuous(c: Option<Content>) {
    c.Some? && (c.value.SingleVideo? || c.value.Slideshow?)
  }

  /**
   * Publishing is offered exactly when it would change what the output shows, or when the
   * staged video or slideshow is not (or no longer) the synced copy of what is live.
   * Slideshows are not compared by content: only the sync flag says whether the staged one
   * is already live.
   */
  function ShouldEnableGoLive(staged: Option<Content>, live: Content, isSynced: bool): (enabled: bool)
    ensures enabled <==> OutputOf(staged) != OutputOf(Some(live)) || (IsContinuous(staged) && !isSynced)
  {
    if staged.None? || staged.value.Standby? then !live.Standby?
    else if live.Standby? then true
    else match (staged.value, live)
      case (SingleImage(sp, _), SingleImage(lp, _)) => sp != lp
      case (SingleVideo(sp, _, _, _), SingleVideo(lp, _, _, _)) => sp != lp || !isSynced
      case (Slideshow(_), Slideshow(_)) => !isSynced
      case _ => true
  }

  /** With nothing (or standby) staged, publishing means returning the output to standby. */
  lemma NothingStagedEnablesIffLiveShowing(staged: Option<Content>, live: Content, isSynced: bool)
    requires staged.None? || staged.value.Standby?
    ensures ShouldEnableGoLive(staged, live, isSynced) <==> !live.Standby?
  {
  }

  /** Anything staged may be published to an idle output, or over content of another kind. */
  lemma IdleOrDifferentKindEnables(staged: Option<Content>, live: Content, isSynced: bool)
    requires staged.Some? && !staged.value.Standby?
    requires live.Standby? || OutputKind(staged.value) != OutputKind(live)
    ensures ShouldEnableGoLive(staged, live, isSynced)
  {
  }

  function OutputKind(c: Content): nat {
    match c
    case Standby => 0
    case SingleImage(_, _) => 1
    case SingleVideo(_, _, _, _) => 2
    case Slideshow(_) => 3
  }

  /** A synced, identical video is already live: the action is not offered twice. */
  lemma SyncedVideoIsNotRepublished(p: string, n: string, t: real, d: real, live: Content)
    requires live.SingleVideo? && live.path == p
    ensures !ShouldEnableGoLive(Some(SingleVideo(p, n, t, d)), live, true)
    ensures ShouldEnableGoLive(Some(SingleVideo(p, n, t, d)), live, false)
  {
  }
}
