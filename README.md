# Video manipulation system: playback controller and frame layout

This project models the two parts of the video manipulation system that carry its logic:

- **The playback controller of `vms.py`.** It has four settings:
  - paused;
  - fullscreen;
  - ended;
  - the fullscreen mode: original, grayscale, blur or edge detect.

  The settings change under single key presses (`change_settings`). While paused, the controller waits for keys (`handle_pause_play`). It chooses between the 2 x 2 comparison view and one fullscreen view (`handle_fullscreen_mode_image`). In the main loop of `process_video` it rewinds and fast-forwards by five seconds of frames (`get_frames_offset`).
- **The frame layout layer of `utils.py`.** Frames are joined side by side (`hstack`) and top to bottom (`vstack`), and laid out as a grid (`grid`). A frame is enlarged to fullscreen (`resize`, `get_fullscreen_image`). The 2 x 2 comparison view shows the original, grayscale, blurred and edge-detected versions of one frame (`get_gray_blur_edgedetect_image`). The pixel transforms `blur`, `grayscale`, `edge_detect` and `convert_to_3_channels` are modelled for the shape and channels they produce.

## Structure

- **`frames.dfy`, module `Frames`.**
  - A frame is a `Frame(shape, rows)`. The subset type `Image` holds the rectangular frames: every row has the frame's width and every pixel its channel count.
  - `HStack`, `VStack` and `Grid` return a `Result`. They fail exactly where numpy's `concatenate` raises:
    - `NothingToConcatenate` for an empty list;
    - `DimensionMismatch` when the frames disagree on a dimension other than the one being joined;
    - `ZeroStep` for a grid of zero columns, where Python's `range` raises.
  - The pixel-level routines of OpenCV are the fields of an `Imaging` value:
    - the luminance of a colour pixel;
    - the Gaussian blur value;
    - the Canny edge test;
    - the resize interpolation.

    Every transform passes these through as a parameter, so shapes, channel counts and the gray-to-colour replication are computed by the model, not assumed.
- **`playback.dfy`, module `Playback`.**
  - The settings are the datatype `Settings`. `Apply` is the key dispatch on it, and `PauseLoop` is the pause wait.
  - `LoopStep` is one pass of the main loop. `Run` is the whole loop, over:
    - a key sequence: the pause wait takes keys from its front, and the one-millisecond poll takes the next key, or reports `-1` when none is left;
    - a frame count, with the decoder position `pos` as a separate number.
  - The class `Controls` keeps the four settings as fields that its methods change in place, as the program keeps its globals:
    - `ChangeSettings` and `HandlePausePlay`, the latter with a loop in place of the recursion;
    - `ProcessVideo`, the main `while` loop.

    Each method is proved against the functions above.

### Where the model follows the code rather than the documented design

- **Keys while paused.** The design says fullscreen and mode keys are ignored while paused. The code passes every key read during the pause to `change_settings` (vms.py:80-81), so `f` and `1`-`4` take effect while paused. The model follows the code; see `ModeKeyWhilePaused`.
- **The frame counter.** The design says the frame counter goes up on every read. The code never changes `current_frame` except on a seek (vms.py:108, 131-140). The model follows the code; see the finding below.
- **Grids of other sizes.** The design says a grid whose frame count the column count does not divide always fails.
  - In the code, a list no longer than `cols` is one strip: the grid is the side-by-side join of all the frames, and succeeds exactly when they agree in height and channel count (`GridSingleStrip`).
  - Otherwise a ragged grid fails with a dimension mismatch (`GridRagged`).
  - Strips need equal heights and the stack needs equal widths, so frames need not all share one shape.
- **The seek offset.** It is `fps * 5` with no rounding (vms.py:100). With a whole-number `fps` this is the same as the design's rounded offset.

## Model

| member | source | states |
|---|---|---|
| Frames.HStack | utils.py:26-27 | succeeds exactly when there is at least one frame and all share the first frame's height and channel count; an empty list is NothingToConcatenate, a disagreement DimensionMismatch; the result keeps the height and channels and its width is the sum of the widths |
| Frames.VStack | utils.py:29-30 | succeeds exactly when there is at least one frame and all share the first frame's width and channel count; the result keeps the width and channels and its height is the sum of the heights; the two failures as for HStack |
| Frames.HStackConforms | utils.py:26-27 | the side-by-side join is a rectangular frame: every row has the summed width and every pixel the common channel count |
| Frames.VStackConforms | utils.py:29-30 | the top-to-bottom join is a rectangular frame |
| Frames.Chunks | utils.py:33 | the slices `imgs[i:i+cols]` for i = 0, cols, 2 cols, ... are nonempty and at most cols long |
| Frames.ChunksFlatten | utils.py:33 | the slices, joined in order, are exactly the frame list |
| Frames.ChunkAt | utils.py:33 | when slice i is complete it is `imgs[i*cols .. i*cols+cols]` |
| Frames.ChunksOfMultiple | utils.py:33 | m * cols frames give exactly m slices, slice i being `imgs[i*cols .. i*cols+cols]` |
| Frames.ShortChunk | utils.py:33 | when cols does not divide the number of frames, some slice is shorter than cols |
| Frames.HStackEach | utils.py:33 | the inner comprehension succeeds exactly when every slice can be joined side by side, giving each slice's strip in order; a failure is the failure of some slice |
| Frames.Grid | utils.py:32-33 | zero columns fail as Python's range does (ZeroStep); negative columns or no frames give nothing to stack (NothingToConcatenate) |
| Frames.GridUniform | utils.py:32-33 | m * cols frames of one shape h x w form a grid m h high and cols w wide, with their channel count |
| Frames.GridBlock | utils.py:32-33 | in that grid, frame bi * cols + bj is exactly the h x w block whose top-left corner is at (bi h, bj w) |
| Frames.GridPlacement | utils.py:32-33 | when cols divides the number of frames, frame k is the block in block row k / cols and block column k % cols |
| Frames.GridSingleStrip | utils.py:32-33 | a grid of no more frames than columns is exactly the side-by-side join of all of them: it succeeds, fails, and has the result that join has |
| Frames.StackOfOne | utils.py:29-30 | stacking a single frame top to bottom gives that frame |
| Frames.GridRagged | utils.py:32-33 | frames of one nonzero width, more of them than columns and cols not dividing their number, fail with DimensionMismatch |
| Frames.GridTwoByTwoTop | utils.py:42 | four frames of one shape in two columns form a 2h x 2w frame whose top-left and top-right blocks are frames 0 and 1 |
| Frames.GridTwoByTwoBottom | utils.py:42 | the bottom-left and bottom-right blocks of that frame are frames 2 and 3 |
| Frames.Views | utils.py:42 | the list of views has four entries, the first the frame itself; for a 3-channel frame all four share its shape |
| Frames.ComparisonLayout | utils.py:41-42 | the two-column grid of a 3-channel frame's four views succeeds, is twice as high and twice as wide, and its four blocks are exactly the original (top left), grayscale (top right), blur (bottom left) and edges (bottom right) |
| Frames.ComparisonRejectsAlpha | utils.py:41-42 | the two-column grid of a 4-channel frame's views fails with DimensionMismatch: the frame cannot be joined with its 3-channel grayscale |
| Frames.ComparisonView | utils.py:41-42 | a 3-channel frame's comparison view succeeds and holds the original, grayscale, blur and edge blocks in reading order; a 4-channel frame's fails with DimensionMismatch |
| Frames.ConvertTo3Channels | utils.py:23-24 | gray to colour keeps height and width, gives 3 channels, and copies each gray value into all three |
| Frames.ToGray | utils.py:21 | colour to gray keeps height and width, gives 1 channel holding the luminance of each pixel |
| Frames.Grayscale | utils.py:19-21 | the grayscale view keeps height and width, has 3 equal channels per pixel, each the pixel's luminance |
| Frames.Blur | utils.py:13-14 | blur keeps the shape and gives each channel the Gaussian value for the given kernel |
| Frames.Canny | utils.py:17 | the edge map keeps height and width, has 1 channel, 255 on an edge and 0 elsewhere |
| Frames.EdgeDetect | utils.py:16-17 | the edge view has 3 equal channels per pixel, 255 on an edge and 0 elsewhere |
| Frames.Resize | utils.py:10-11 | the target is the width times the width scale by the height times the height scale, channels kept, and every channel value is the library's interpolation of the source for that target size |
| Frames.FullscreenImage | utils.py:38-39 | the fullscreen image is gridRows times as high and gridCols times as wide as the frame, each channel value the library's interpolation of the frame for that size |
| Playback.Apply | vms.py:43-76 | -1 and every unbound key, a and d among them, change nothing; space flips paused only; f flips fullscreen only; 1-4 set fullscreen and the named mode whatever the state; q sets ended, which no key clears |
| Playback.ApplyAllSnoc | vms.py:43-76 | applying a run of keys and then one more is applying the longer run |
| Playback.EndedMonotone | vms.py:71-73 | after a run of keys, ended holds exactly when it held before or the run contains q |
| Playback.UnboundKeysChangeNothing | vms.py:74-76 | a run of keys change_settings does not know leaves the settings as they were |
| Playback.EvenTogglesRestore | vms.py:49-54 | an even number of presses of space, or of f, restores every setting |
| Playback.PauseLoop | vms.py:78-86 | the wait takes at most the keys there are; it stops on q with ended set, or on space with ended clear, after at least one key; without such a key it takes them all and ended is unchanged |
| Playback.PauseLoopSpec | vms.py:78-86 | the wait applies every key up to and including the first that ends it (space, or a key after which ended holds) and stops exactly there; after space the last key taken is space; running out of keys means no key ended the wait |
| Playback.PauseExhausted | vms.py:78-86 | a wait that runs out of keys met no key that ends it |
| Playback.ResumeUnpauses | vms.py:81-85 | a wait entered paused and ended by space leaves the video playing |
| Playback.ModeKeyWhilePaused | vms.py:80-86 | a mode key pressed while paused, then space, resumes in fullscreen with that mode |
| Playback.ModeTransform | vms.py:88-96 | the mode applies exactly its transform with the program's constants: original is the frame itself, grayscale the luminance, blur the 5 x 5 Gaussian, edge detect Canny with thresholds 200 and 300; the shape is kept |
| Playback.FullscreenModeImage | vms.py:88-97 | the fullscreen view is the chosen mode's transform of the frame, enlarged by the grid's 2 columns and 2 rows: each channel value is the library's interpolation of the transformed frame |
| Playback.ComparisonImage | vms.py:122-123 | the comparison view of a colour frame is twice as high and twice as wide, with the frame, its grayscale, its 5 x 5 blur and its Canny edges at thresholds 200 and 300 as the four blocks |
| Playback.Render | vms.py:119-123 | the displayed image is twice the frame in each direction, with 3 channels; in fullscreen it is the chosen mode's transform enlarged 2 x 2, otherwise the four comparison blocks (frame, grayscale, 5 x 5 blur, edges at 200 and 300) |
| Playback.FramesOffset | vms.py:99-100 | the offset is five seconds of frames: a multiple of 5 whose fifth is fps |
| Playback.RewindTarget | vms.py:131-134 | rewind goes back by the offset, or to frame 0 when that is nearer, never forward |
| Playback.FastForwardTarget | vms.py:136-139 | fast forward goes on by the offset, or to the frame count when that is nearer, never past the frame count |
| Playback.PauseStage | vms.py:110-111 | playing, the top of the loop takes no key; paused, it takes at least one key unless it runs out, and leaves the video playing unless a q was pressed |
| Playback.LoopStep | vms.py:109-140 | a pass that displays a frame displays the frame at the decoder position, never after a q and never while paused; the counter changes only through a or d, and stays within the frame count; a pass that stops after q has ended set |
| Playback.Run | vms.py:104-140 | the loop keeps the counter within the frame count and, from a state not both paused and ended, stops because of q exactly when ended is set |
| Playback.IdleStep | vms.py:114-128 | a poll that reports no key plays the next frame under the same settings |
| Playback.IdleFrames | vms.py:109-128 | n polls without a key display the next n frames in order and leave the decoder n frames on |
| Playback.RunWithoutKeys | vms.py:109-118 | with no key pressed every remaining frame is displayed once, in order, and the loop ends at the end of the video |
| Playback.PausedUntouched | vms.py:43-76 | keys other than space never touch paused, and change the other settings alike whatever paused is |
| Playback.WaitThenResume | vms.py:78-86 | a wait through keys without space or q, then space, applies those keys, resumes playing and takes exactly them and the space |
| Playback.PauseAndResume | vms.py:109-128 | space while frame pos is displayed, then keys without space or q, then space: frame pos is shown once and the loop resumes at frame pos + 1 under the settings those keys made |
| Playback.QuitStep | vms.py:112-128 | a q polled while a frame is displayed ends the loop right after that frame |
| Playback.QuitAfter | vms.py:109-128 | n frames without a key then q display exactly n + 1 consecutive frames and stop with ended |
| Playback.FastForwardStep | vms.py:136-140 | a d moves both the counter and the decoder to the clamped fast-forward target |
| Playback.RewindStep | vms.py:131-135 | an a moves both the counter and the decoder to the clamped rewind target |
| Playback.EndedIsFinal | vms.py:112-113 | once ended is set no frame is displayed and the counter does not move |
| Playback.ShownFrames | vms.py:112-118 | every displayed frame exists in the video and was displayed while playing, before any q |
| Playback.CurrentOnlyOnSeek | vms.py:108-140 | without a or d the counter keeps its value through the whole run |
| Playback.FastForwardReplaysFrames | vms.py:108-140 | as written, seven frames at 1 fps with d pressed on the last one display frames 0-6 and then 5 and 6 again |
| Playback.TrackedStep | vms.py:109-140 | with the counter kept at the decoder position, a pass that displays frame pos leaves the counter equal to the decoder position, and beyond pos unless a is pressed |
| Playback.RunTracked | vms.py:104-140 | the corrected loop keeps the counter within the frame count and stops because of q only with ended set |
| Playback.TrackedNeverReplays | vms.py:131-140 | without a rewind, the corrected loop displays frames strictly in increasing order, each at most once, all within the video |
| Playback.Controls.constructor | vms.py:37-41 | the settings start playing, not fullscreen, not ended, mode original |
| Playback.Controls.ChangeSettings | vms.py:43-76 | the fields become the dispatch `Apply` of the key on the old fields |
| Playback.Controls.HandlePausePlay | vms.py:78-86 | the loop leaves the fields, the exit and the number of keys taken as the wait `PauseLoop` gives them |
| Playback.Controls.WaitIfPaused | vms.py:110-111 | the top of the loop leaves the fields and the remaining keys as `PauseStage` gives them |
| Playback.Controls.Pass | vms.py:109-140 | one pass of the loop is the step `LoopStep` gives, displays the rendered frame exactly when it plays, and the rest of the run follows from the new state |
| Playback.Controls.Show | vms.py:119-140 | once playing, the pass displays the frame under the settings before the poll and then takes the step `LoopStep` gives |
| Playback.Controls.Display | vms.py:119-125 | the image displayed is the rendering of the frame under the current settings |
| Playback.Controls.Poll | vms.py:127-140 | the poll applies the next key and seeks as `LoopStep` gives |
| Playback.Controls.ProcessVideo | vms.py:104-144 | the loop ends with the settings and the exit of `Run` from frame 0, counter 0, and displays exactly the rendering of each frame `Run` shows, in order |

## Left out

- The pixel arithmetic of OpenCV (`cv2.GaussianBlur`, `cv2.Canny`, the luminance of `cv2.cvtColor`, the interpolation of `cv2.resize`) is a foreign library. It is a parameter of type `Imaging`; only the shapes, the channels and the gray-to-colour copy are computed.
- Opening, reading, seeking and releasing the video, the window, `imshow`, `waitKey` and `destroyAllWindows` are input and output.
  - The video is a sequence of decoded frames and the decoder position a number.
  - The keyboard is a sequence of key codes.
  - What `imshow` would display is returned as a sequence of images.
- Logging, the "End of Video!" message, the interactive path prompt and the banner (vms.py:35, 117, 146-152) are left out; they print or read the console.
- The wait for a key while paused blocks for ever when no key comes. The model cannot wait for ever, so the wait ends with `KeysExhausted` and the loop with `PausedWithoutKeys`.
- Playback.FramesOffset: fps and the frame count are floats in the program. They are whole numbers here, so a fractional offset and the float comparison of `min` are not modelled.
- Frames.Resize: the scales are whole numbers, as the program's are (2 and 2), so the truncation by `int()` never applies. An empty target size, which OpenCV rejects, is excluded by the precondition rather than modelled as an error.
- Frames.Blur: OpenCV rejects a kernel with an even side. This is a precondition here; the program always passes 5 x 5.
- Playback.Render: the frames are the nonempty 3-channel colour frames the decoder delivers, a precondition of the display functions.
- `constants.py` is not part of this model. It only defines constants and enums, and `vms.py` does not import it.
- The `Mat` type alias (utils.py:8) is a typing detail.
- Playback.Controls.ProcessVideo follows the program as written, with the frame counter moved only by seeks. The corrected loop is the function `RunTracked`, not a second method.

## Findings

| source | as written | input that shows it | evidently intended | confidence | as-written member | corrected member |
|---|---|---|---|---|---|---|
| vms.py:108-140 | `current_frame` starts at 0 and only seeks change it; reading a frame does not, so a seek is measured from a stale counter | 7 frames at 1 fps, six polls with no key, then d while frame 6 is displayed: the counter is 0, fast forward seeks to frame 5, and the frames displayed are 0, 1, 2, 3, 4, 5, 6, 5, 6 | the counter follows the decoder, so fast forward never goes back and, without a rewind, no frame is displayed twice | not executed | Playback.FastForwardReplaysFrames | Playback.TrackedNeverReplays |
