/**
 * The output window (src/presentation/presentation.js): which view is showing, the timers
 * that belong to a view, and the double-buffered layers of the image, scripture and quick
 * slide views. Each message handler of the window is a method of `Display`; styling and the
 * document elements themselves are not part of the model.
 */
module Presentation {
  import opened Wrappers
  import Html
  import Countdown
  import Content

  /** `getObjectFit`: the CSS object-fit value for a scaling mode. */
  function ObjectFit(mode: string): (fit: string)
    ensures fit == "cover" <==> mode == "fill"
    ensures fit == "fill" <==> mode == "stretch"
    ensures fit == "contain" <==> mode != "fill" && mode != "stretch"
  {
    match mode
    case "fill" => "cover"
    case "stretch" => "fill"
    case _ => "contain"
  }

  datatype View = StandbyView | ImageView | VideoView | AudioView | ScriptureView | QuickSlideView

  /** A scripture message: the passage, and the comparison version's text or "". */
  datatype Passage = Passage(text: string, reference: string, version: string, compareText: string, compareVersion: string)

  /** The text a scripture layer shows. */
  datatype ScriptureLayer = ScriptureLayer(text: string, reference: string, compareText: string, compareReference: string)

  /** One element of a custom quick slide: a title, or body text. */
  datatype SlideElement = SlideElement(isTitle: bool, text: string)

  /** A quick-slide message; `elements` is present for custom slides, `endTime` for countdowns. */
  datatype QuickSlide = QuickSlide(
    preset: string, title: string, body: string, elements: Option<seq<SlideElement>>,
    endTime: Option<int>, countdownLabel: string)

  /** What a quick-slide layer shows. */
  datatype QuickContent =
    | Blank
    | CustomElements(html: seq<string>)
    | CountdownTimer(countdownLabel: string)
    | TitledText(title: string, bodyHtml: string)

  /** `${reference} (${version})`. */
  function ReferenceLine(reference: string, version: string): string {
    reference + " (" + version + ")"
  }

  function ScriptureContent(p: Passage): (l: ScriptureLayer)
    ensures l.text == p.text && l.reference == ReferenceLine(p.reference, p.version)
    ensures p.compareText == "" <==> l.compareReference == ""
    ensures l.compareText == p.compareText
  {
    if p.compareText != "" then
      ScriptureLayer(p.text, ReferenceLine(p.reference, p.version), p.compareText, ReferenceLine(p.reference, p.compareVersion))
    else
      ScriptureLayer(p.text, ReferenceLine(p.reference, p.version), "", "")
  }

  /** A custom element's markup: titles are escaped, body text goes through the list rendering. */
  function ElementHtml(e: SlideElement): string {
    if e.isTitle then Html.EscapeHtml(e.text) else Html.BodyHtml(e.text)
  }

  function CustomHtml(elements: seq<SlideElement>): seq<string>
    decreases |elements|
  {
    if elements == [] then [] else CustomHtml(elements[..|elements| - 1]) + [ElementHtml(elements[|elements| - 1])]
  }

  predicate IsCustom(slide: QuickSlide) {
    slide.preset == "custom" && slide.elements.Some?
  }

  predicate IsCountdown(slide: QuickSlide) {
    !IsCustom(slide) && slide.preset == "countdown"
  }

  /** Only announcements and prayers show their title. */
  function ShownTitle(slide: QuickSlide): string {
    if slide.preset == "announcement" || slide.preset == "prayer" then slide.title else ""
  }

  /** What a quick slide puts on the layer it is drawn on. */
  function QuickContentOf(slide: QuickSlide): QuickContent {
    if IsCustom(slide) then CustomElements(CustomHtml(slide.elements.value))
    else if IsCountdown(slide) then CountdownTimer(slide.countdownLabel)
    else TitledText(ShownTitle(slide), Html.BodyHtml(slide.body))
  }

  /** The last segment of a path split at '/' and '\'. */
  function LastSegment(p: string): (r: string)
    ensures |r| <= |p| && r == p[|p| - |r|..]
    ensures '/' !in r && '\\' !in r
    ensures |r| < |p| ==> p[|p| - |r| - 1] in "/\\"
    decreases |p|
  {
    if p == [] then []
    else if p[|p| - 1] in "/\\" then []
    else
      var init := p[..|p| - 1];
      var r := LastSegment(init) + [p[|p| - 1]];
      assert |r| < |p| ==> p[|p| - |r| - 1] == init[|init| - (|r| - 1) - 1];
      r
  }

  /** The audio view's track name: the file name without its extension. */
  function TrackName(p: string): (r: string)
    ensures '/' !in r && '\\' !in r
  {
    Content.StripExtension(LastSegment(p))
  }

  /** The file name of a path, for paths whose file name has no '.'. */
  lemma TrackNameKeepsPlainNames(dir: string, name: string)
    requires name != [] && '/' !in name && '\\' !in name && '.' !in name
    ensures TrackName(dir + "/" + name) == name
  {
    var p := dir + "/" + name;
    LastSegmentOfJoin(dir, name);
    assert Content.LastDot(name) == -1;
  }

  /** The track name of `dir/stem.ext` is `stem`: the extension is removed. */
  lemma TrackNameStripsExtension(dir: string, stem: string, ext: string)
    requires ext != [] && '.' !in ext && '/' !in ext && '\\' !in ext
    requires '/' !in stem && '\\' !in stem
    ensures TrackName(dir + "/" + stem + "." + ext) == stem
  {
    var name := stem + "." + ext;
    assert dir + "/" + stem + "." + ext == dir + "/" + name;
    assert '/' !in name && '\\' !in name by {
      forall k | 0 <= k < |name| ensures name[k] != '/' && name[k] != '\\' {
        if k < |stem| { assert name[k] == stem[k]; }
        else if k > |stem| { assert name[k] == ext[k - |stem| - 1]; }
      }
    }
    LastSegmentOfJoin(dir, name);
    Content.StripsExtension(stem, ext);
  }

  lemma {:induction false} LastSegmentOfJoin(dir: string, name: string)
    requires '/' !in name && '\\' !in name
    ensures LastSegment(dir + "/" + name) == name
    decreases |name|
  {
    var p := dir + "/" + name;
    if name == [] {
      assert p[|p| - 1] == '/';
    } else {
      var init := name[..|name| - 1];
      assert p[..|p| - 1] == dir + "/" + init;
      assert p[|p| - 1] == name[|name| - 1];
      LastSegmentOfJoin(dir, init);
      assert name == init + [name[|name| - 1]];
    }
  }

  /** The state of the output window. Source strings are `file://` URLs, "" when a medium has none. */
  class Display {
    var currentState: View
    var transitionMode: string
    var standbyImage: string
    var slideLayers: seq<string>
    var activeSlideLayer: nat
    var slideLoadPending: bool
    var videoSource: string
    var videoTime: real
    var videoUpdateInterval: bool
    var audioSource: string
    var audioTime: real
    var audioTrackName: string
    var audioUpdateInterval: bool
    var scriptureLayers: seq<ScriptureLayer>
    var activeScriptureLayer: nat
    var quickLayers: seq<QuickContent>
    var activeQuickSlideLayer: nat
    var countdownInterval: bool
    var countdownEnd: Option<int>
    var countdownText: string

    /**
     * Two layers per double-buffered view, with an active index of 0 or 1, and no medium or
     * timer outliving its view: video and audio are unloaded and their reporting intervals
     * cleared outside their views, and the countdown interval runs only in the quick-slide view.
     */
    ghost predicate Valid()
      reads this
    {
      ValidExceptCountdown() && (currentState != QuickSlideView ==> !countdownInterval)
    }

    /** Two layers per double-buffered view, and no video or audio left loaded in another view. */
    ghost predicate ValidExceptCountdown()
      reads this
    {
      && |slideLayers| == 2 && activeSlideLayer < 2
      && |scriptureLayers| == 2 && activeScriptureLayer < 2
      && |quickLayers| == 2 && activeQuickSlideLayer < 2
      && (currentState != VideoView ==> videoSource == "" && !videoUpdateInterval)
      && (currentState != AudioView ==> audioSource == "" && !audioUpdateInterval)
    }

    /** The window as it loads: standby showing, fade transitions, every layer empty. */
    constructor ()
      ensures Valid()
      ensures currentState == StandbyView && transitionMode == "fade"
      ensures activeSlideLayer == 0 && activeScriptureLayer == 0 && activeQuickSlideLayer == 0
      ensures !videoUpdateInterval && !audioUpdateInterval && !countdownInterval
    {
      currentState := StandbyView;
      transitionMode := "fade";
      standbyImage := "";
      slideLayers := ["", ""];
      activeSlideLayer := 0;
      slideLoadPending := false;
      videoSource := "";
      videoTime := 0.0;
      videoUpdateInterval := false;
      audioSource := "";
      audioTime := 0.0;
      audioTrackName := "";
      audioUpdateInterval := false;
      scriptureLayers := [ScriptureLayer("", "", "", ""), ScriptureLayer("", "", "", "")];
      activeScriptureLayer := 0;
      quickLayers := [Blank, Blank];
      activeQuickSlideLayer := 0;
      countdownInterval := false;
      countdownEnd := None;
      countdownText := "";
    }

    /** `stopVideo`: unloads the video and clears its reporting interval. */
    method StopVideo()
      modifies this`videoSource, this`videoUpdateInterval
      ensures videoSource == "" && !videoUpdateInterval
    {
      videoSource := "";
      if videoUpdateInterval {
        videoUpdateInterval := false;
      }
    }

    /** `stopAudio`: unloads the audio and clears its reporting interval. */
    method StopAudio()
      modifies this`audioSource, this`audioUpdateInterval
      ensures audioSource == "" && !audioUpdateInterval
    {
      audioSource := "";
      if audioUpdateInterval {
        audioUpdateInterval := false;
      }
    }

    /**
     * `showView`: makes `view` the current view. Leaving the video or audio view stops that
     * medium; leaving the quick-slide view clears the countdown. Staying in a view keeps
     * everything running.
     */
    method ShowView(view: View)
      modifies this`currentState, this`videoSource, this`videoUpdateInterval
      modifies this`audioSource, this`audioUpdateInterval, this`countdownInterval
      ensures currentState == view
      ensures if old(currentState) == VideoView && view != VideoView then videoSource == "" && !videoUpdateInterval
              else videoSource == old(videoSource) && videoUpdateInterval == old(videoUpdateInterval)
      ensures if old(currentState) == AudioView && view != AudioView then audioSource == "" && !audioUpdateInterval
              else audioSource == old(audioSource) && audioUpdateInterval == old(audioUpdateInterval)
      ensures countdownInterval == (old(countdownInterval) && (old(currentState) != QuickSlideView || view == QuickSlideView))
      ensures old(Valid()) ==> Valid()
    {
      if currentState == VideoView && view != VideoView {
        StopVideo();
      }
      if currentState == AudioView && view != AudioView {
        StopAudio();
      }
      if currentState == QuickSlideView && view != QuickSlideView {
        if countdownInterval {
          countdownInterval := false;
        }
      }
      currentState := view;
    }

    /** `resetSlideLayers`: empties both image layers and makes the first one active. */
    method ResetSlideLayers()
      modifies this`slideLayers, this`activeSlideLayer, this`slideLoadPending
      ensures slideLayers == ["", ""] && activeSlideLayer == 0 && !slideLoadPending
    {
      slideLayers := ["", ""];
      activeSlideLayer := 0;
      slideLoadPending := false;
    }

    /** SHOW_STANDBY: the standby image (or none), image layers reset, standby view. */
    method OnShowStandby(imagePath: string)
      requires Valid()
      modifies this`standbyImage, this`slideLayers, this`activeSlideLayer, this`slideLoadPending
      modifies this`currentState, this`videoSource, this`videoUpdateInterval
      modifies this`audioSource, this`audioUpdateInterval, this`countdownInterval
      ensures Valid()
      ensures currentState == StandbyView
      ensures standbyImage == if imagePath != "" then "file://" + imagePath else ""
      ensures slideLayers == ["", ""] && activeSlideLayer == 0 && !slideLoadPending
      ensures videoSource == "" && audioSource == "" && !countdownInterval
      ensures scriptureLayers == old(scriptureLayers) && quickLayers == old(quickLayers)
      ensures activeScriptureLayer == old(activeScriptureLayer) && activeQuickSlideLayer == old(activeQuickSlideLayer)
      ensures transitionMode == old(transitionMode)
    {
      if imagePath != "" {
        standbyImage := "file://" + imagePath;
      } else {
        standbyImage := "";
      }
      ResetSlideLayers();
      ShowView(StandbyView);
    }

    /**
     * SHOW_IMAGE: loads the image into the hidden layer and shows the image view; the layers
     * swap once the image has loaded (SlideLoaded).
     */
    method OnShowImage(imagePath: string)
      requires Valid()
      modifies this`slideLayers, this`slideLoadPending
      modifies this`currentState, this`videoSource, this`videoUpdateInterval
      modifies this`audioSource, this`audioUpdateInterval, this`countdownInterval
      ensures Valid()
      ensures currentState == ImageView
      ensures slideLayers == old(slideLayers)[1 - old(activeSlideLayer) := "file://" + imagePath]
      ensures activeSlideLayer == old(activeSlideLayer) && slideLoadPending
      ensures videoSource == "" && audioSource == "" && !countdownInterval
      ensures scriptureLayers == old(scriptureLayers) && quickLayers == old(quickLayers)
      ensures activeScriptureLayer == old(activeScriptureLayer) && activeQuickSlideLayer == old(activeQuickSlideLayer)
      ensures standbyImage == old(standbyImage) && transitionMode == old(transitionMode)
    {
      var next := 1 - activeSlideLayer;
      slideLayers := slideLayers[next := "file://" + imagePath];
      slideLoadPending := true;
      ShowView(ImageView);
    }

    /** The hidden layer's image has loaded: the transition makes it the active layer. */
    method SlideLoaded()
      requires Valid() && slideLoadPending
      modifies this`activeSlideLayer, this`slideLoadPending
      ensures Valid()
      ensures activeSlideLayer == 1 - old(activeSlideLayer) && !slideLoadPending
      ensures slideLayers[activeSlideLayer] == slideLayers[1 - old(activeSlideLayer)]
    {
      activeSlideLayer := 1 - activeSlideLayer;
      slideLoadPending := false;
    }

    /** SHOW_VIDEO: loads the video at its start time (`startTime || 0`) and shows the video view. */
    method OnShowVideo(videoPath: string, startTime: Option<real>)
      requires Valid()
      modifies this`videoTime
      modifies this`currentState, this`videoSource, this`videoUpdateInterval
      modifies this`audioSource, this`audioUpdateInterval, this`countdownInterval
      ensures Valid()
      ensures currentState == VideoView && videoSource == "file://" + videoPath
      ensures videoTime == if startTime.Some? then startTime.value else 0.0
      ensures videoUpdateInterval == (old(currentState) == VideoView && old(videoUpdateInterval))
      ensures audioSource == "" && !countdownInterval
      ensures slideLayers == old(slideLayers) && activeSlideLayer == old(activeSlideLayer)
      ensures scriptureLayers == old(scriptureLayers) && quickLayers == old(quickLayers)
      ensures activeScriptureLayer == old(activeScriptureLayer) && activeQuickSlideLayer == old(activeQuickSlideLayer)
    {
      videoSource := "file://" + videoPath;
      videoTime := if startTime.Some? then startTime.value else 0.0;
      ShowView(VideoView);
    }

    /** The playing video's first `timeupdate` starts the interval that reports its state. */
    method OnVideoTimeUpdate()
      requires Valid() && videoSource != ""
      modifies this`videoUpdateInterval
      ensures Valid() && currentState == VideoView && videoUpdateInterval
    {
      if !videoUpdateInterval {
        videoUpdateInterval := true;
      }
    }

    /** PLAY_AUDIO: names the track after its file, loads it, and shows the audio view. */
    method OnPlayAudio(audioPath: string, startTime: Option<real>)
      requires Valid()
      modifies this`audioTrackName, this`audioSource, this`audioTime, this`currentState
      modifies this`videoSource, this`videoUpdateInterval, this`audioUpdateInterval, this`countdownInterval
      ensures Valid()
      ensures currentState == AudioView && audioSource == "file://" + audioPath
      ensures audioTrackName == TrackName(audioPath)
      ensures audioTime == if startTime.Some? then startTime.value else 0.0
      ensures audioUpdateInterval == (old(currentState) == AudioView && old(audioUpdateInterval))
      ensures videoSource == "" && !countdownInterval
    {
      audioTrackName := TrackName(audioPath);
      LoadAudio(audioPath, startTime);
    }

    /** The source and start time of the track (`startTime || 0`), then the audio view. */
    method LoadAudio(audioPath: string, startTime: Option<real>)
      requires Valid()
      modifies this`audioSource, this`audioTime, this`currentState
      modifies this`videoSource, this`videoUpdateInterval, this`audioUpdateInterval, this`countdownInterval
      ensures Valid()
      ensures currentState == AudioView && audioSource == "file://" + audioPath
      ensures audioTime == if startTime.Some? then startTime.value else 0.0
      ensures audioUpdateInterval == (old(currentState) == AudioView && old(audioUpdateInterval))
      ensures videoSource == "" && !countdownInterval
    {
      audioSource := "file://" + audioPath;
      audioTime := if startTime.Some? then startTime.value else 0.0;
      ShowView(AudioView);
    }

    /** The playing track's first `timeupdate` starts the interval that reports its state. */
    method OnAudioTimeUpdate()
      requires Valid() && audioSource != ""
      modifies this`audioUpdateInterval
      ensures Valid() && currentState == AudioView && audioUpdateInterval
    {
      if !audioUpdateInterval {
        audioUpdateInterval := true;
      }
    }

    /**
     * SHOW_SCRIPTURE: draws the passage on the hidden layer and makes it the active one,
     * whether or not scripture was already showing; the other layer keeps the previous passage.
     */
    method OnShowScripture(p: Passage)
      requires Valid()
      modifies this`scriptureLayers, this`activeScriptureLayer
      modifies this`currentState, this`videoSource, this`videoUpdateInterval
      modifies this`audioSource, this`audioUpdateInterval, this`countdownInterval
      ensures Valid()
      ensures currentState == ScriptureView
      ensures activeScriptureLayer == 1 - old(activeScriptureLayer)
      ensures scriptureLayers[activeScriptureLayer] == ScriptureContent(p)
      ensures scriptureLayers[old(activeScriptureLayer)] == old(scriptureLayers[activeScriptureLayer])
      ensures videoSource == "" && audioSource == "" && !countdownInterval
      ensures slideLayers == old(slideLayers) && activeSlideLayer == old(activeSlideLayer)
      ensures quickLayers == old(quickLayers) && activeQuickSlideLayer == old(activeQuickSlideLayer)
    {
      var next := 1 - activeScriptureLayer;
      scriptureLayers := scriptureLayers[next := ScriptureContent(p)];
      activeScriptureLayer := 1 - activeScriptureLayer;
      ShowView(ScriptureView);
    }

    /** The countdown's tick: redraws the timer and clears the interval once time is up. */
    method CountdownTick(now: int)
      modifies this`countdownText, this`countdownInterval
      ensures countdownText == Countdown.ClockText(Countdown.Remaining(countdownEnd, now))
      ensures countdownInterval == (old(countdownInterval) && Countdown.Remaining(countdownEnd, now) > 0)
      ensures old(Valid()) ==> Valid()
    {
      var remaining := Countdown.Remaining(countdownEnd, now);
      countdownText := Countdown.ClockText(remaining);
      if remaining <= 0 && countdownInterval {
        countdownInterval := false;
      }
    }

    /** Renders the elements of a custom slide, one after the other. */
    method RenderCustom(elements: seq<SlideElement>) returns (html: seq<string>)
      ensures html == CustomHtml(elements)
    {
      html := [];
      var i := 0;
      while i < |elements|
        invariant 0 <= i <= |elements|
        invariant html == CustomHtml(elements[..i])
      {
        assert elements[..i + 1][..i] == elements[..i];
        var e := elements[i];
        var markup;
        if e.isTitle {
          markup := Html.EscapeHtml(e.text);
        } else {
          markup := Html.ParseBodyForLists(e.text);
        }
        html := html + [markup];
        i := i + 1;
      }
      assert elements[..|elements|] == elements;
    }

    /**
     * The content half of SHOW_QUICK_SLIDE: what the slide draws on the hidden layer. A
     * countdown replaces any running countdown, draws its timer at once and starts its
     * interval; other slides leave a running countdown alone.
     */
    method DrawQuickSlide(slide: QuickSlide, now: int) returns (content: QuickContent)
      modifies this`countdownInterval, this`countdownEnd, this`countdownText
      ensures content == QuickContentOf(slide)
      ensures IsCountdown(slide) ==>
        && countdownInterval && countdownEnd == slide.endTime
        && countdownText == Countdown.ClockText(Countdown.Remaining(slide.endTime, now))
      ensures !IsCountdown(slide) ==> unchanged(this`countdownInterval, this`countdownEnd, this`countdownText)
    {
      if slide.preset == "custom" && slide.elements.Some? {
        var html := RenderCustom(slide.elements.value);
        content := CustomElements(html);
      } else if slide.preset == "countdown" {
        if countdownInterval {
          countdownInterval := false;
        }
        content := CountdownTimer(slide.countdownLabel);
        countdownEnd := slide.endTime;
        CountdownTick(now);
        countdownInterval := true;
      } else {
        var showTitle := slide.preset == "announcement" || slide.preset == "prayer";
        var bodyHtml := Html.ParseBodyForLists(slide.body);
        content := TitledText(if showTitle then slide.title else "", bodyHtml);
      }
    }

    /**
     * SHOW_QUICK_SLIDE: draws the slide on the hidden layer and makes it the active one,
     * whether or not a quick slide was already showing; the other layer keeps the previous slide.
     */
    method OnShowQuickSlide(slide: QuickSlide, now: int)
      requires Valid()
      modifies this`quickLayers, this`activeQuickSlideLayer, this`currentState
      modifies this`videoSource, this`videoUpdateInterval, this`audioSource, this`audioUpdateInterval
      modifies this`countdownInterval, this`countdownEnd, this`countdownText
      ensures Valid()
      ensures currentState == QuickSlideView
      ensures activeQuickSlideLayer == 1 - old(activeQuickSlideLayer)
      ensures quickLayers[activeQuickSlideLayer] == QuickContentOf(slide)
      ensures quickLayers[old(activeQuickSlideLayer)] == old(quickLayers[activeQuickSlideLayer])
      ensures IsCountdown(slide) ==>
        && countdownInterval && countdownEnd == slide.endTime
        && countdownText == Countdown.ClockText(Countdown.Remaining(slide.endTime, now))
      ensures !IsCountdown(slide) ==>
        && countdownText == old(countdownText) && countdownEnd == old(countdownEnd)
        && countdownInterval == (old(currentState) == QuickSlideView && old(countdownInterval))
      ensures videoSource == "" && audioSource == ""
    {
      var content := DrawQuickSlide(slide, now);
      PresentQuickLayer(content);
    }

    /** The drawn slide goes on the hidden layer, the layers swap, and the quick-slide view shows. */
    method PresentQuickLayer(content: QuickContent)
      requires ValidExceptCountdown()
      modifies this`quickLayers, this`activeQuickSlideLayer, this`currentState
      modifies this`videoSource, this`videoUpdateInterval, this`audioSource, this`audioUpdateInterval
      modifies this`countdownInterval
      ensures Valid()
      ensures currentState == QuickSlideView
      ensures activeQuickSlideLayer == 1 - old(activeQuickSlideLayer)
      ensures quickLayers[activeQuickSlideLayer] == content
      ensures quickLayers[old(activeQuickSlideLayer)] == old(quickLayers[activeQuickSlideLayer])
      ensures countdownInterval == old(countdownInterval)
      ensures videoSource == "" && audioSource == ""
    {
      var next := 1 - activeQuickSlideLayer;
      quickLayers := quickLayers[next := content];
      activeQuickSlideLayer := 1 - activeQuickSlideLayer;
      ShowView(QuickSlideView);
    }

    /** SET_TRANSITION: the transition used for the next image swap. */
    method OnSetTransition(transition: string)
      modifies this`transitionMode
      ensures transitionMode == transition
    {
      transitionMode := transition;
    }
  }

  /** Custom titles read back as their text; there is one piece of markup per element. */
  lemma CustomTitlesReadBack(elements: seq<SlideElement>, i: nat)
    requires i < |elements| && elements[i].isTitle
    ensures |CustomHtml(elements)| == |elements|
    ensures Html.Unescape(CustomHtml(elements)[i]) == elements[i].text
  {
    CustomHtmlAt(elements, i);
    Html.EscapeRoundTrip(elements[i].text);
  }

  /** Element `i` of a custom slide renders as the `i`-th piece of markup. */
  lemma {:induction false} CustomHtmlAt(elements: seq<SlideElement>, i: nat)
    requires i < |elements|
    ensures |CustomHtml(elements)| == |elements|
    ensures CustomHtml(elements)[i] == ElementHtml(elements[i])
    decreases |elements|
  {
    var init := elements[..|elements| - 1];
    CustomHtmlLength(init);
    if i < |init| {
      CustomHtmlAt(init, i);
    }
  }

  lemma {:induction false} CustomHtmlLength(elements: seq<SlideElement>)
    ensures |CustomHtml(elements)| == |elements|
    decreases |elements|
  {
    if elements != [] {
      CustomHtmlLength(elements[..|elements| - 1]);
    }
  }

  /** A countdown reads back as the whole seconds left, and reads zero from its end time on. */
  lemma CountdownShowsSecondsLeft(endTime: int, now: int)
    requires endTime != 0
    ensures Countdown.ReadClock(Countdown.ClockText(Countdown.Remaining(Some(endTime), now)))
      == Some(if endTime > now then (endTime - now) / 1000 else 0)
  {
    Countdown.ClockReadsBack(Countdown.Remaining(Some(endTime), now));
  }
}
