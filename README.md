# ProjectGuidelight control and output core, in Dafny

ProjectGuidelight is a two-window presentation program: an operator's control surface
(`src/control/control.js`) and a full-screen output window (`src/presentation/presentation.js`).
This project models the core of both and proves what they promise.

**Control surface.** It keeps a two-slot register. `staged` holds content being prepared, `live`
holds what the output shows, and `isSynced` says whether the staged copy of a video or slideshow
is the one that is live. Content is standby, a single image, a single video, or a slideshow with
a queue, an index, an interval, a loop flag and a transition. While a slideshow is live, queue
edits on the staged show are deferred as pending adds and removes. They are folded in when the
show is pushed live. The live show advances on a timer, stops at its end unless it loops, and
waits for a video entry to end.

- `Content` (content.dfy): the content records and their constructors, and the image and video
  path getters.
- `GoLive` (golive.dfy): the go-live decision.
- `QueueEdit` (queue_edit.dfy): reconciling pending edits, clamping the index, drag-drop moves.
- `Playback` (playback.dfy): timer ticks and prev/next wraparound.
- `Control` (controller.dfy): the register as the class `Controller`. Every button handler,
  timer tick and output report is a method. Messages to the output window are appended to
  `sent`. `activeIntervals` counts running slideshow intervals.
- The invariant `Controller.Valid` says four things. Index positions are in range. Only the live
  show owns an interval, at most one, and none while paused. A staged show owns none. A synced
  staged copy agrees with the live show.

**Output window.** It shows one view at a time: standby, image, video, audio, scripture or quick
slide. The image, scripture and quick-slide views each draw the next content on a hidden layer
and then swap layers.

- `Html` (html.dfy): `escapeHtml` and `parseBodyForLists`. The latter renders quick-slide text as
  a bullet list, a numbered list, or escaped text with `<br>` line breaks.
- `Countdown` (countdown.dfy): the countdown's remaining time and its `mm:ss` text.
- `Presentation` (presentation.dfy): `getObjectFit`, and the window state as the class `Display`.
  Each message handler is a method.
- The invariant `Display.Valid` says two things. Every active layer index is 0 or 1. No video,
  audio or countdown interval outlives its view.

Behaviour that is a property of one handler is stated in that method's `ensures`. Properties
that relate several calls are lemmas. Loops in the source (the pending-edit loops, `findIndex`,
the picker's confirm loop, the body-parsing loop, custom slide rendering) are methods with
loops. Each is proved equal to a recursive reference function, and the lemmas are stated about
that function.

## Model

| member | source | states |
|---|---|---|
| Content.StripExtension | src/control/control.js:38 | the result is a prefix of the name; when something is removed it is a final '.' followed by at least one character, none of them '.' or '/' |
| Content.StripsExtension | src/control/control.js:38 | a name `stem.ext`, with `ext` non-empty and free of '.' and '/', loses exactly `.ext` |
| Content.TrailingSlashes | src/control/control.js:38 | the number of '/' the path ends with: all of them are '/', and the character before them is not |
| Content.ComponentLength | src/control/control.js:38 | the length of the last '/'-free run: none of its characters is '/', and the one before it is |
| Content.BaseName | src/control/control.js:38 | the last '/'-component of the path with trailing '/' ignored: the '/'-free run that ends where the trailing '/' begin and is preceded by a '/' or the start of the path |
| Content.BaseNameOfJoin | src/control/control.js:38 | the base name of `dir/name` is `name` when `name` is non-empty and has no '/' |
| Content.DefaultDisplayName | src/control/control.js:38 | a prefix of the base name, without '/'; StripExtension's contract says what is cut |
| Content.DefaultNameOfFile | src/control/control.js:38 | the default display name of `dir/stem.ext` is `stem` |
| Content.CreateSingleImage | src/control/control.js:34-40 | a single image of the given path; a non-empty display name is kept, an empty one becomes the default display name of the path |
| Content.CreateSingleVideo | src/control/control.js:70-78 | a single video of the given path at the given time with duration 0; a non-empty display name is kept, an empty one becomes the default display name of the path |
| Content.CreateSlideshow | src/control/control.js:42-54 | queue, index and loop as given; an empty id becomes the fresh id, interval 0 becomes 7000, an empty transition becomes "fade"; nothing pending, not paused, no timer |
| Content.CreateLiveSlideshow | src/control/control.js:56-68 | a copy of the staged show's id, queue, index, interval, loop and transition, not paused, no timer, nothing pending; a valid index stays valid |
| Content.CurrentEntry | src/control/control.js:1205-1210 | there is a current entry exactly when the index is inside the queue, and it is an entry of the queue |
| Content.ImagePathOf | src/control/control.js:195-205 | an image path comes only from a single image (its path) or from a slideshow whose current entry is an image with a non-empty path, and always comes in those cases |
| Content.VideoPathOf | src/control/control.js:207-215 | a video path comes from a single video (its path), or from a slideshow exactly when its current entry is a video |
| Content.ImageAndVideoExclusive | src/control/control.js:195-237 | no content yields both an image path and a video path |
| Content.PresetQueue | src/control/control.js:1151-1157 | no preset gives an empty queue; otherwise one image entry per preset image, with its path |
| Content.PresetEntries | src/control/control.js:1152-1155 | one entry per image, same path, not a video, display name defaulting to the base name |
| Content.FindLibraryItem | src/control/control.js:1700 | a found item is in the library with that path; none found means no item has that path |
| Content.FindLibraryItemIsFirst | src/control/control.js:1700 | the item found is the first one with the path, as `Array.prototype.find` gives |
| GoLive.ShouldEnableGoLive | src/control/control.js:292-325 | publishing is offered exactly when it would change what the output shows, or when the staged video or slideshow is not the synced copy |
| GoLive.NothingStagedEnablesIffLiveShowing | src/control/control.js:293-296 | with nothing or standby staged, the action is offered exactly when the output is not on standby |
| GoLive.IdleOrDifferentKindEnables | src/control/control.js:297-300 | anything staged may go live on an idle output or over live content of another kind |
| GoLive.SyncedVideoIsNotRepublished | src/control/control.js:310-316 | the same video is offered again only when it is not synced |
| QueueEdit.FirstIndexOf | src/control/control.js:1191 | the first index whose entry has the path, or -1 when no entry has it |
| QueueEdit.FindIndex | src/control/control.js:1191 | the search loop returns exactly FirstIndexOf |
| QueueEdit.RemoveFirst | src/control/control.js:1190-1195 | a path not in the queue leaves it unchanged; otherwise exactly the first match is cut out; nothing is ever added |
| QueueEdit.Keep | src/control/control.js:1190-1195 | the entries whose path is not listed, in order (reference for the removal loop) |
| QueueEdit.ClampIndex | src/control/control.js:1200-1202 | an index inside the queue is kept; one past the end becomes the last position, or 0 for an empty queue |
| QueueEdit.ApplyPendingChanges | src/control/control.js:1181-1203 | afterwards nothing is pending, a non-negative index is a queue position, and only queue, index and pending lists change |
| QueueEdit.AppendMissing | src/control/control.js:1183-1187 | the pending adds whose path is not yet listed, appended in order; its properties are the contract of AppendMissingSpec |
| QueueEdit.RemoveEach | src/control/control.js:1189-1194 | each pending path in turn removes the first entry with it; RemoveEachUnique and RemoveEachShrinks state what remains |
| QueueEdit.MergePendingAdds | src/control/control.js:1184-1188 | the add loop computes AppendMissing |
| QueueEdit.DropPendingRemoves | src/control/control.js:1190-1195 | the remove loop computes RemoveEach |
| QueueEdit.AppendMissingSpec | src/control/control.js:1184-1188 | old entries keep their places; every appended entry is a pending add whose path was not listed; every pending path ends up listed; distinct paths stay distinct |
| QueueEdit.KeepSubset | src/control/control.js:1190-1195 | keeping entries keeps distinct paths distinct, and every kept entry was there and is not listed |
| QueueEdit.RemoveFirstUnique | src/control/control.js:1191-1194 | with distinct paths, cutting the first match removes every match |
| QueueEdit.RemoveEachUnique | src/control/control.js:1190-1195 | with distinct paths, the removal loop drops exactly the listed paths and keeps the rest in order |
| QueueEdit.RemoveEachShrinks | src/control/control.js:1190-1195 | the removal loop only takes entries out, at most one per pending path |
| QueueEdit.ApplyPendingOnce | src/control/control.js:1181-1203 | reconciling leaves nothing pending and a valid index, and reconciling again changes nothing |
| QueueEdit.ApplyPendingContents | src/control/control.js:1181-1203 | with distinct paths, the new queue is the old queue plus new pending adds, minus every pending removal, still with distinct paths |
| QueueEdit.Move | src/control/control.js:1579-1581 | the moved entry lands at the drop index, the other entries keep their relative order, and the queue is a permutation of the old one |
| Playback.Advance | src/control/control.js:1262-1274 | a tick moves one entry on, wraps to 0 when looping, and ends (None) exactly when a non-looping show is past its last entry; positions stay in the queue |
| Playback.WrapNext | src/control/control.js:862-865 | next is (index + 1) mod length on a non-empty queue, and stays in the queue |
| Playback.WrapPrev | src/control/control.js:847-850 | prev is (index - 1) mod length on a non-empty queue, stays in the queue, and stays 0 on an empty one |
| Playback.WrapPrevAsWritten | src/control/control.js:847-850 | the source's step agrees with WrapPrev on non-empty queues and yields -1 on an empty one |
| Playback.WrapInverse | src/control/control.js:845-869 | prev undoes next and next undoes prev |
| Playback.NextIsLoopingTick | src/control/control.js:903-917 | the next button moves as a tick of a looping show |
| Playback.AdvanceWithinQueue | src/control/control.js:1262-1265 | before the last entry, k ticks move k entries |
| Playback.AdvanceCompose | src/control/control.js:1256-1277 | a ticks then b ticks are a + b ticks |
| Playback.LoopingShowCycles | src/control/control.js:1262-1270 | a looping show returns to its entry after one tick per entry |
| Playback.NonLoopingShowEnds | src/control/control.js:1262-1274 | a non-looping show started at 0 reaches its last entry and ends on the next tick |
| Control.PreviewAfterRefresh | src/control/control.js:260-290 | nothing staged or a non-empty image path removes the preview video; a non-empty video path gives a new paused preview, at the staged time for a single video; an empty or missing path keeps the preview, as the truthiness tests at 277 and 282 do |
| Control.StagedQueue | src/control/control.js:1147-1158 | the queue the editor shows: a staged show's own queue; otherwise one entry per image of the current preset, in order, each named by its display name or else its base name (PresetEntry); empty with no preset |
| Control.FindPreset | src/control/control.js:679 | a found preset is in the list with that id; none found means no preset has it |
| Control.FindPresetIsFirst | src/control/control.js:679 | the preset found is the first one with the id, as `Array.prototype.find` gives |
| Control.Mirrored | src/control/control.js:1038-1048 | a playing report moves the preview to its time and plays a paused preview; a paused report pauses a playing one; otherwise the preview is unchanged |
| Control.Controller.constructor | src/control/control.js:17-28 | the initial register: nothing staged, standby live, not synced, default settings, no interval |
| Control.Controller.StopLiveSlideshowTimer | src/control/control.js:1249-1254 | the live timer is cleared and no interval runs |
| Control.Controller.StartLiveTimer | src/control/control.js:1234-1242 | the live show's timer is armed with exactly one interval |
| Control.Controller.ResetLiveTimer | src/control/control.js:1244-1247 | the timer is re-armed only for a running live show |
| Control.Controller.ShowCurrentLiveSlide | src/control/control.js:1205-1232 | the current entry is sent; a video entry disarms the timer and waits for the video, an image entry arms it unless paused; a synced preview follows |
| Control.Controller.AdvanceLiveSlide | src/control/control.js:1256-1277 | nothing while waiting for a video; otherwise the Advance step, a synced staged copy follows and only then is the preview refreshed, and the end of a non-looping show goes to standby |
| Control.Controller.HandleNaturalSlideshowEnd | src/control/control.js:1279-1296 | standby is sent, no interval runs, and a synced staged copy is dropped |
| Control.Controller.PauseLiveSlideshow | src/control/control.js:1298-1306 | the live show is paused with no interval |
| Control.Controller.ResumeLiveSlideshow | src/control/control.js:1308-1313 | the live show runs again with its timer armed |
| Control.Controller.StopLiveSlideshow | src/control/control.js:1315-1332 | standby is sent, no interval runs, sync is cleared and a synced staged copy dropped |
| Control.Controller.PressLivePause | src/control/control.js:894-901 | the pause button toggles between paused and running |
| Control.Controller.PressLiveStop | src/control/control.js:919-922 | stops a live slideshow, with a synced staged copy dropped and the preview refreshed; otherwise nothing changes |
| Control.Controller.PressLivePrev | src/control/control.js:878-892 | one entry back with wraparound (an empty queue keeps index 0, see Left out), shown, timer restarted if running, synced staged index follows |
| Control.Controller.PressLiveNext | src/control/control.js:903-917 | one entry forward with wraparound, shown, timer restarted if running, synced staged index follows |
| Control.Controller.FollowLiveIndex | src/control/control.js:887-891 | a synced staged show takes the live index and the preview is refreshed; an unsynced or non-show staged content and the preview are left as they were |
| Control.Controller.PressStagedPrev | src/control/control.js:845-856 | the staged show steps back with wraparound (an empty queue keeps index 0, see Left out) and is no longer synced |
| Control.Controller.PressStagedNext | src/control/control.js:858-869 | the staged show steps forward with wraparound and is no longer synced |
| Control.Controller.PressStandby | src/control/control.js:127-141 | output to standby, a live video stopped, nothing staged or synced, no interval, and the action is not offered |
| Control.Controller.SelectMedia | src/control/control.js:640-658 | the file is staged unsynced; going live is then offered exactly for a video or an image other than the live one |
| Control.Controller.StageMedia | src/control/control.js:648-656 | the single image or video is staged unsynced, the preview refreshed, and publishing is offered unless that very image is live |
| Control.Controller.ClearStaged | src/control/control.js:406-419 | nothing staged or synced; going live is offered exactly when the output is not on standby |
| Control.Controller.PressGoLive | src/control/control.js:364-404 | standby, an image or a video reaches the output with the stop and show messages stated; a staged show is reconciled and goes live as its full presented copy with the timer armed, its transition and current entry sent and the preview refreshed, as PushSlideshowLive; afterwards the action is not offered again |
| Control.Controller.PushSlideshowLive | src/control/control.js:1160-1179 | pending edits reconciled, the live show a synced copy of the staged one, its transition announced, entry shown, timer armed |
| Control.Controller.ApplyPendingQueueChanges | src/control/control.js:1181-1203 | the staged show becomes ApplyPendingChanges of itself; other content is untouched |
| Control.Controller.StopLiveVideo | src/control/control.js:1087-1092 | a stop command goes out only while a single video is live, and the report is forgotten |
| Control.Controller.PressPreviewPlay | src/control/control.js:933-946 | toggles the preview and desynchronises it from the live video |
| Control.Controller.SeekPreview | src/control/control.js:948-958 | the preview and staged video move to the slider's share of the known duration, unsynced |
| Control.Controller.PressLivePlay | src/control/control.js:960-973 | plays or pauses the live video by its last report; a synced preview follows |
| Control.Controller.PressLiveRestart | src/control/control.js:975-983 | restarts the live video; a synced preview and staged copy go back to 0 and play |
| Control.Controller.PressLiveVideoStop | src/control/control.js:985-1000 | stops the live video and goes to standby; a synced staged copy and preview are dropped |
| Control.Controller.SeekLive | src/control/control.js:1002-1011 | the live video moves to the slider's share of the reported duration; a synced preview follows |
| Control.Controller.OnVideoState | src/control/control.js:1013-1050 | ignored unless a single video is live; a stop report for the live file goes to standby; other reports are stored and mirrored when synced |
| Control.Controller.OnPreviewMetadata | src/control/control.js:1056-1061 | the preview and staged video learn their duration |
| Control.Controller.OnPreviewTimeUpdate | src/control/control.js:1063-1068 | the staged video follows the preview's time |
| Control.Controller.RemoveQueueItem | src/control/control.js:1591-1625 | a pending add is withdrawn; while live the path is marked for removal once; otherwise the entry goes, the index is clamped and an emptied show is unstaged; the preview is refreshed |
| Control.Controller.WithdrawPendingAdd | src/control/control.js:1592-1599 | the first pending add with the path is cut out of the staged show and nothing else changes |
| Control.Controller.MarkForRemoval | src/control/control.js:1600-1604 | while a show is live, the path is listed for removal exactly once and the queue is untouched |
| Control.Controller.RemoveFromQueue | src/control/control.js:1605-1617 | the first entry with the path leaves the queue, the index is clamped, and a show left empty is unstaged |
| Control.AddSelected | src/control/control.js:1697-1733 | the confirm handler's effect on the staged content, path by path; AddWhileLive, AddOneNotLive and AddWhileNotLive state it |
| Control.Controller.ConfirmAddMedia | src/control/control.js:1696-1742 | the confirm loop computes AddSelected over the selected paths |
| Control.Controller.DropQueueEntry | src/control/control.js:1574-1584 | the dragged entry of the staged show moves to the drop position |
| Control.Controller.ClickQueueEntry | src/control/control.js:1539-1558 | the show is staged on the clicked entry, unsynced, created from the preset when none is staged |
| Control.Controller.Stage | src/control/control.js:653-655 | the content is staged, not synced, and the preview refreshed; Valid is kept |
| Control.Controller.PressQueueSlideshow | src/control/control.js:765-802 | a new staged show on its first entry, with pending edits folded in and the queued settings; nothing for an empty queue |
| Control.Controller.SelectPreset | src/control/control.js:676-687 | a preset id loads that preset and its settings; the empty choice forgets it, unstages and restores defaults; nothing is synced |
| Control.AddWhileLive | src/control/control.js:1705-1718 | while a show is live, the staged queue is untouched; only pending adds for unlisted paths are gained, and every selected library path ends up listed or pending |
| Control.AddOneNotLive | src/control/control.js:1719-1738 | with no show live, one found file is listed afterwards, a staged show only grows at its end without duplicating a path, and a file not in the library changes nothing |
| Control.AddWhileNotLive | src/control/control.js:1719-1738 | with no show live, every selected library path ends up in the staged queue, entries are only appended, and distinct paths stay distinct |
| Control.EmptyQueuePrevAsWritten | src/control/control.js:880-888 | as written, a show pushed with every entry pending removal and then prev'd has index -1, which the next reconciliation keeps; the pushed show has entries but no current one |
| Control.EmptyQueuePrevCorrected | src/control/control.js:1181-1203 | with the corrected prev step, a show that is prev'd and reconciled keeps a valid index and a current entry when non-empty |
| Html.Trim | src/presentation/presentation.js:25 | `String.prototype.trim`: the text without the LeadingSpace and TrailingSpace runs |
| Html.LeadingSpace | src/presentation/presentation.js:25 | what `trim` drops at the start: every character before the count is JavaScript white space and the next one is not |
| Html.TrailingSpace | src/presentation/presentation.js:25 | what `trim` drops at the end: every character after the cut is JavaScript white space and the one before it is not |
| Html.SplitLines | src/presentation/presentation.js:17 | at least one line, none containing a line feed |
| Html.SplitThenJoin | src/presentation/presentation.js:17 | joining the lines with line feeds gives back the text |
| Html.EscapeHtml | src/presentation/presentation.js:592-595 | the empty text stays empty, any other goes through the three replacements; EscapeHtmlPerChar, EscapedHasNoBrackets and EscapeRoundTrip state its meaning |
| Html.EscapeHtmlPerChar | src/presentation/presentation.js:592-595 | the three global replacements are the per-character escape of each character |
| Html.EscapedHasNoBrackets | src/presentation/presentation.js:592-595 | escaped text contains no raw '<' or '>' |
| Html.EscapeRoundTrip | src/presentation/presentation.js:592-595 | decoding the entities of escaped text gives back the text |
| Html.PlainRoundTrip | src/presentation/presentation.js:54-55 | escaped text with `<br>` line breaks decodes back to the text |
| Html.LeadingDigits | src/presentation/presentation.js:19 | the length of the longest run of leading ASCII digits |
| Html.BulletItem | src/presentation/presentation.js:18 | the bullet pattern's test and capture on a trimmed line; BulletItemIsPattern states what it accepts |
| Html.NumberedItem | src/presentation/presentation.js:19 | the numbered pattern's test and second capture on a trimmed line; NumberedItemIsPattern states what it accepts |
| Html.BulletItemIsPattern | src/presentation/presentation.js:18 | a line matches the bullet pattern exactly when a mark, white space, then text without line terminators follow each other; the capture has no leading white space |
| Html.NumberedItemIsPattern | src/presentation/presentation.js:19 | a line matches the numbered pattern exactly when digits, a dot, white space, then text without line terminators follow each other |
| Html.PatternsExclusive | src/presentation/presentation.js:36-46 | no line matches both patterns, so bullet precedence never hides a numbered list |
| Html.BodyHtml | src/presentation/presentation.js:15-56 | the body's markup: a list when every non-blank line is an item, otherwise escaped text with `<br>`; ListReadsBack and PlainReadsBack state what it reads back as |
| Html.ParseBodyForLists | src/presentation/presentation.js:15-56 | the classification loop and the item loop compute BodyHtml |
| Html.JoinItems | src/presentation/presentation.js:38-40 | filtering, mapping and joining the lines gives one `<li>` per captured item |
| Html.FirstLt | src/presentation/presentation.js:38-40 | the position of the first '<', or -1 |
| Html.ReadLiItems | src/presentation/presentation.js:38-40 | a run of `<li>` elements reads back as exactly the item texts |
| Html.ListReadsBack | src/presentation/presentation.js:36-51 | when every non-blank line is an item, the output reads back as a list of that kind with one item per non-blank line, in order |
| Html.PlainReadsBack | src/presentation/presentation.js:54-55 | when the text is not a list, the output decodes back to the text |
| Countdown.ClockText | src/presentation/presentation.js:529-532 | the `mm:ss` text of the remaining time; ClockReadsBack states that it reads back as the whole seconds |
| Countdown.Remaining | src/presentation/presentation.js:528 | the remaining time is max(0, end - now), with a missing or zero end meaning now |
| Countdown.Decimal | src/presentation/presentation.js:531 | at least one digit, all digits, no leading zero except for 0 |
| Countdown.Pad2 | src/presentation/presentation.js:531 | padded to at least two characters, digits stay digits |
| Countdown.DecimalValue | src/presentation/presentation.js:531 | the decimal text denotes the number |
| Countdown.PadValue | src/presentation/presentation.js:531 | zero padding does not change the value |
| Countdown.ClockReadsBack | src/presentation/presentation.js:526-532 | the timer text has at least 5 characters and reads back as the whole seconds remaining, with a two-digit seconds field below 60 |
| Presentation.ObjectFit | src/presentation/presentation.js:58-64 | "fill" maps to cover, "stretch" to fill, and every other mode to contain, each both ways |
| Presentation.ScriptureContent | src/presentation/presentation.js:336-348 | the layer shows the text and "reference (version)"; the comparison line is empty exactly when there is no comparison text |
| Presentation.LastSegment | src/presentation/presentation.js:268 | the suffix after the last '/' or '\' |
| Presentation.TrackName | src/presentation/presentation.js:268 | the track name contains no separator; TrackNameStripsExtension states that the extension is removed |
| Presentation.TrackNameStripsExtension | src/presentation/presentation.js:268 | the track name of `dir/stem.ext` is `stem`: the extension is removed |
| Presentation.TrackNameKeepsPlainNames | src/presentation/presentation.js:268 | a file name without a dot is the track name of any path ending in it |
| Presentation.Display.constructor | src/presentation/presentation.js:4-12 | standby view, fade transitions, layer 0 active everywhere, no interval |
| Presentation.Display.StopVideo | src/presentation/presentation.js:93-101 | the video is unloaded and its reporting interval cleared |
| Presentation.Display.StopAudio | src/presentation/presentation.js:103-111 | the audio is unloaded and its reporting interval cleared |
| Presentation.Display.ShowView | src/presentation/presentation.js:113-139 | the requested view becomes current; leaving video or audio stops it, leaving the quick slide clears the countdown; staying keeps all running; Valid is preserved |
| Presentation.Display.ResetSlideLayers | src/presentation/presentation.js:82-91 | both image layers emptied and layer 0 active |
| Presentation.Display.OnShowStandby | src/presentation/presentation.js:163-172 | the standby image set or cleared, image layers reset, standby view, nothing else playing; only those fields change |
| Presentation.Display.OnShowImage | src/presentation/presentation.js:174-207 | the image goes on the hidden layer, the active layer waits for the load, image view; only those fields change |
| Presentation.Display.SlideLoaded | src/presentation/presentation.js:183-200 | the loaded layer becomes the active one |
| Presentation.Display.OnShowVideo | src/presentation/presentation.js:209-235 | the video is loaded at `startTime` or 0, video view, audio and countdown stopped; nothing else changes, so a pending image load still completes |
| Presentation.Display.OnVideoTimeUpdate | src/presentation/presentation.js:229-233 | a playing video has its reporting interval, started once |
| Presentation.Display.OnPlayAudio | src/presentation/presentation.js:264-292 | the track is loaded and named after its file, audio view, video and countdown stopped |
| Presentation.Display.LoadAudio | src/presentation/presentation.js:271-272 | the track is loaded at `startTime` or 0 and the audio view shows, with video and countdown stopped |
| Presentation.Display.OnAudioTimeUpdate | src/presentation/presentation.js:287-291 | a playing track has its reporting interval, started once |
| Presentation.Display.OnShowScripture | src/presentation/presentation.js:321-433 | the passage is drawn on the hidden layer, which becomes active; the other layer keeps the previous passage; nothing else changes, so a pending image load still completes |
| Presentation.Display.CountdownTick | src/presentation/presentation.js:526-538 | the timer shows ClockText of the remaining time; the interval stops once nothing remains |
| Presentation.Display.RenderCustom | src/presentation/presentation.js:479-493 | the element loop renders each element in order: titles escaped, bodies through parseBodyForLists |
| Presentation.QuickContentOf | src/presentation/presentation.js:469-553 | the quick slide's content: custom elements, a countdown timer, or a title and a parsed body; CustomHtmlAt and CustomTitlesReadBack state the custom branch |
| Presentation.Display.DrawQuickSlide | src/presentation/presentation.js:469-577 | the slide's content; a countdown restarts the countdown with its timer drawn at once; other slides leave it alone |
| Presentation.Display.OnShowQuickSlide | src/presentation/presentation.js:435-590 | the slide is drawn on the hidden layer, which becomes active; the other layer keeps the previous slide |
| Presentation.Display.PresentQuickLayer | src/presentation/presentation.js:578-589 | the drawn slide goes on the hidden layer, which becomes active; the other layer keeps its slide and the quick-slide view shows |
| Presentation.Display.OnSetTransition | src/presentation/presentation.js:613-615 | the transition mode is replaced |
| Presentation.CustomHtmlAt | src/presentation/presentation.js:479-493 | a custom slide renders one piece of markup per element, the `i`-th being element `i` drawn as a title or a body |
| Presentation.CustomTitlesReadBack | src/presentation/presentation.js:491 | a custom slide has one piece of markup per element, and each title reads back as its text |
| Presentation.CountdownShowsSecondsLeft | src/presentation/presentation.js:526-532 | the timer reads back as the whole seconds until the end time, and 0 from then on |

## Left out

- Electron IPC, the DOM and CSS are not modelled. Messages to the output window are values appended to `sent`. Class lists, styles, element visibility, fonts, backgrounds and scripture slide direction are not modelled.
- Real timers are not modelled. An interval is a flag or a count. Its ticks are method calls (`AdvanceLiveSlide`, `CountdownTick`). `Date.now()` is the `now` parameter.
- `generateId` is the `freshId` parameter.
- Reading and writing settings and presets on disk, the preset save, rename and delete dialogs and the three-preset limit are not modelled. `loadActivePreset` during `init` is not modelled.
- Library management, thumbnails, image-size warnings (`checkImageWarnings`), `getMediaName` and all rendering (`renderImageGrid`, `renderSlideshowQueue`, the picker grid) are not modelled.
- `getLuminance` and the interval inputs are not modelled. They use floating point or only touch UI state. Slider positions and media times are exact reals.
- The output window's `CONTROL_VIDEO` and `CONTROL_AUDIO` handlers, `SETTINGS_UPDATED` and `init` are not modelled. The control surface's `CONTROL_VIDEO` messages are modelled as sent values.
- Control.Controller.OnVideoState: the branch for a slideshow waiting on a video's `ended` report sits behind the single-video guard and can never run. It has no counterpart. As written, a live slideshow therefore stays on a video entry, because `advanceLiveSlide` returns while `waitingForVideo` is set (src/control/control.js:1258). After a tick the show's timer is disarmed. After a push, or a live prev/next on an unpaused show, the timer is armed again (src/control/control.js:1172, 885, 910), but its ticks have no effect.
- Control.Controller.DropQueueEntry: the staged index is not adjusted when entries move, as in the source. Both indices must be positions of the listed queue, because the listed entries are the only drop targets.
- Presentation.Display.OnVideoTimeUpdate: it requires a loaded video. A `timeupdate` event fired while the element empties its source is not modelled. Such an event would re-arm the reporting interval that `stopVideo` has just cleared (src/presentation/presentation.js:96-100, 228-232), outside the video view, so the display invariant that no interval outlives its view is promised only for the events modelled. Presentation.Display.OnAudioTimeUpdate is treated the same way (src/presentation/presentation.js:106-110, 285-289).
- Presentation.Display.SlideLoaded: it requires a pending load. An image that never loads (an error) leaves the layers as they are.
- Control.Controller.PressLivePrev: on an empty live queue the source sets index -1 (src/control/control.js:880-883) and, when synced, copies it into the staged show. The model steps with the corrected Playback.WrapPrev and keeps index 0 (see Findings).
- Control.Controller.PressStagedPrev: on an empty staged queue the source sets index -1 (src/control/control.js:847-850). The model steps with the corrected Playback.WrapPrev and keeps index 0 (see Findings).
- Strings are sequences of Unicode scalar values, not UTF-16 code units. Node's `path.basename` is modelled for '/' separators only.

## Findings

| source | as written | input that shows it | evidently intended | confidence | as-written member | corrected member |
|---|---|---|---|---|---|---|
| src/control/control.js:880-883 | `live.index--; if (live.index < 0) live.index = live.queue.length - 1` sets index -1 on an empty queue, and a synced staged show copies it (885-888). The staged prev step at 847-850 is the same. `applyPendingQueueChanges` (1200-1202) only clamps an index that is too large. | Push a show whose every entry is pending removal: the live and staged queues are empty at index 0. Press live prev: both indices become -1. Add one entry while live. Select a preset, which clears isSynced (685) and leaves staged alone. Go live: the pushed show has queue [e] and index -1, so `showCurrentLiveSlide` reads `queue[-1].type` (1208-1210) | prev on an empty queue keeps index 0, so every reconciled show has a current entry | not executed | Control.EmptyQueuePrevAsWritten | Playback.WrapPrev |
