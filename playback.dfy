/**
 * The playback controller of the video manipulation system: four settings
 * changed by single key presses, a pause that waits for the next key, the
 * choice between the 2 x 2 comparison view and a fullscreen view, and
 * rewind / fast forward by five seconds of frames.
 *
 * Keys are the integer codes the window toolkit reports (-1 when no key
 * was pressed); the keyboard is a sequence of such codes, the video a
 * sequence of decoded frames.
 */
module Playback {
  import Frames

  // ---------------------------------------------------------------------
  // Constants (vms.py)
  // ---------------------------------------------------------------------

  const BlurKernelWidth: nat := 5
  const BlurKernelHeight: nat := 5
  const CannyMinThreshold: int := 200
  const CannyMaxThreshold: int := 300
  const GridRows: nat := 2
  const GridCols: nat := 2
  const RewindFastForwardSeconds: nat := 5

  /** The code reported when no key was pressed. */
  const NoKey: int := -1

  const KeyPauseOrPlay: int := 32    // ' '
  const KeyQuit: int := 113          // 'q'
  const KeyFullscreen: int := 102    // 'f'
  const KeyRewind: int := 97         // 'a'
  const KeyFastForward: int := 100   // 'd'
  const KeyOriginal: int := 49       // '1'
  const KeyGrayscale: int := 50      // '2'
  const KeyBlur: int := 51           // '3'
  const KeyEdgeDetect: int := 52     // '4'

  // ---------------------------------------------------------------------
  // Settings and the key dispatch (change_settings)
  // ---------------------------------------------------------------------

  datatype FullScreenMode = Original | Grayscale | Blur | EdgeDetect

  /** The four settings the key presses change. */
  datatype Settings = Settings(paused: bool, fullscreen: bool, ended: bool, mode: FullScreenMode)

  /** Playing, in the comparison view, with the original frame selected for fullscreen. */
  const InitialSettings := Settings(false, false, false, Original)

  /** The keys change_settings acts on. */
  predicate Bound(key: int) {
    key in {KeyPauseOrPlay, KeyFullscreen, KeyOriginal, KeyGrayscale, KeyBlur, KeyEdgeDetect, KeyQuit}
  }

  /** The fullscreen mode a digit key selects. */
  function ModeKey(m: FullScreenMode): int {
    match m
    case Original => KeyOriginal
    case Grayscale => KeyGrayscale
    case Blur => KeyBlur
    case EdgeDetect => KeyEdgeDetect
  }

  /** The settings after one key press. */
  function Apply(s: Settings, key: int): (t: Settings)
    ensures !Bound(key) ==> t == s
    ensures t.paused == (s.paused != (key == KeyPauseOrPlay))
    ensures t.ended == (s.ended || key == KeyQuit)
    ensures key == KeyFullscreen ==> t == s.(fullscreen := !s.fullscreen)
    ensures forall m :: key == ModeKey(m) ==> t == s.(fullscreen := true, mode := m)
    ensures key !in {KeyFullscreen, KeyOriginal, KeyGrayscale, KeyBlur, KeyEdgeDetect} ==>
      t.fullscreen == s.fullscreen && t.mode == s.mode
  {
    if key == NoKey then s
    else if key == KeyPauseOrPlay then s.(paused := !s.paused)
    else if key == KeyFullscreen then s.(fullscreen := !s.fullscreen)
    else if key == KeyOriginal then s.(fullscreen := true, mode := Original)
    else if key == KeyGrayscale then s.(fullscreen := true, mode := Grayscale)
    else if key == KeyBlur then s.(fullscreen := true, mode := Blur)
    else if key == KeyEdgeDetect then s.(fullscreen := true, mode := EdgeDetect)
    else if key == KeyQuit then s.(ended := true)
    else s
  }

  /** The settings after a run of key presses, in order. */
  function ApplyAll(s: Settings, keys: seq<int>): Settings
    decreases |keys|
  {
    if keys == [] then s else ApplyAll(Apply(s, keys[0]), keys[1..])
  }

  lemma {:induction false} ApplyAllSnoc(s: Settings, keys: seq<int>, key: int)
    ensures ApplyAll(s, keys + [key]) == Apply(ApplyAll(s, keys), key)
    decreases |keys|
  {
    if keys != [] {
      assert (keys + [key])[1..] == keys[1..] + [key];
      ApplyAllSnoc(Apply(s, keys[0]), keys[1..], key);
    }
  }

  /** Quitting is permanent: a run of keys ends playback exactly when it holds a q. */
  lemma {:induction false} EndedMonotone(s: Settings, keys: seq<int>)
    ensures ApplyAll(s, keys).ended <==> s.ended || KeyQuit in keys
    decreases |keys|
  {
    if keys != [] {
      EndedMonotone(Apply(s, keys[0]), keys[1..]);
      assert keys == [keys[0]] + keys[1..];
    }
  }

  /** Keys change_settings does not know, rewind and fast forward among them, change nothing. */
  lemma {:induction false} UnboundKeysChangeNothing(s: Settings, keys: seq<int>)
    requires forall i :: 0 <= i < |keys| ==> !Bound(keys[i])
    ensures ApplyAll(s, keys) == s
    decreases |keys|
  {
    if keys != [] {
      UnboundKeysChangeNothing(Apply(s, keys[0]), keys[1..]);
    }
  }

  /** n presses of one key. */
  function Presses(key: int, n: nat): (ks: seq<int>)
    ensures |ks| == n && forall i :: 0 <= i < n ==> ks[i] == key
  {
    if n == 0 then [] else [key] + Presses(key, n - 1)
  }

  lemma PressOneMore(key: int, n: nat, m: nat, rest: seq<int>)
    requires n > 0 && m == n - 1
    ensures Presses(key, n) + rest == [key] + (Presses(key, m) + rest)
  {
    assert Presses(key, n) == [key] + Presses(key, m);
  }

  /** An even number of presses of space, or of f, leaves every setting as it was. */
  lemma {:induction false} EvenTogglesRestore(s: Settings, key: int, n: nat)
    requires key == KeyPauseOrPlay || key == KeyFullscreen
    ensures ApplyAll(s, Presses(key, 2 * n)) == s
  {
    if n > 0 {
      var ks := Presses(key, 2 * n);
      assert ks[1..][1..] == Presses(key, 2 * (n - 1));
      EvenTogglesRestore(s, key, n - 1);
    }
  }

  // ---------------------------------------------------------------------
  // The pause loop (handle_pause_play)
  // ---------------------------------------------------------------------

  datatype PauseExit =
    | Resumed        // space was pressed
    | Stopped        // q was pressed
    | KeysExhausted  // no key left: the program would wait for ever

  datatype PauseOutcome = PauseOutcome(settings: Settings, exit: PauseExit, consumed: nat)

  /**
   * Wait for keys while paused: every key goes through change_settings;
   * the wait ends after a q or after space.
   */
  function PauseLoop(s: Settings, keys: seq<int>): (o: PauseOutcome)
    ensures o.consumed <= |keys|
    ensures o.exit == KeysExhausted ==> o.consumed == |keys| && o.settings.ended == s.ended
    ensures o.exit != KeysExhausted ==> o.consumed > 0
    ensures o.exit == Stopped ==> o.settings.ended
    ensures o.exit == Resumed ==> !o.settings.ended
    decreases |keys|
  {
    if keys == [] then PauseOutcome(s, KeysExhausted, 0)
    else
      var t := Apply(s, keys[0]);
      if t.ended then PauseOutcome(t, Stopped, 1)
      else if keys[0] == KeyPauseOrPlay then PauseOutcome(t, Resumed, 1)
      else
        var o := PauseLoop(t, keys[1..]);
        PauseOutcome(o.settings, o.exit, o.consumed + 1)
  }

  /** Key j of keys, pressed while paused, ends the wait. */
  predicate EndsWait(s: Settings, keys: seq<int>, j: nat)
    requires j < |keys|
  {
    keys[j] == KeyPauseOrPlay || ApplyAll(s, keys[..j + 1]).ended
  }

  /**
   * The wait applies every key up to and including the first one that ends
   * it, stops there, and reports which one it was; without such a key it
   * applies them all and is still waiting.
   */
  lemma {:induction false} PauseLoopSpec(s: Settings, keys: seq<int>)
    ensures var o := PauseLoop(s, keys);
      && o.settings == ApplyAll(s, keys[..o.consumed])
      && (o.exit != KeysExhausted ==> EndsWait(s, keys, o.consumed - 1))
      && (forall j :: 0 <= j < |keys| && EndsWait(s, keys, j) ==> o.consumed <= j + 1)
      && (o.exit == Resumed ==> keys[o.consumed - 1] == KeyPauseOrPlay && !o.settings.ended)
      && (o.exit == Stopped ==> o.settings.ended)
      && (o.exit == KeysExhausted ==> forall j :: 0 <= j < |keys| ==> !EndsWait(s, keys, j))
    decreases |keys|
  {
    PauseExhausted(s, keys);
    if keys != [] {
      var t := Apply(s, keys[0]);
      assert keys[..1] == [keys[0]];
      assert ApplyAll(s, keys[..1]) == t;
      if !t.ended && keys[0] != KeyPauseOrPlay {
        var rest := keys[1..];
        PauseLoopSpec(t, rest);
        var o := PauseLoop(t, rest);
        assert keys[..o.consumed + 1][1..] == rest[..o.consumed];
        forall j | 0 <= j <= |rest|
          ensures ApplyAll(s, keys[..j + 1]) == ApplyAll(t, rest[..j])
        {
          assert keys[..j + 1][1..] == rest[..j];
        }
        forall j | 0 <= j < |keys| && EndsWait(s, keys, j)
          ensures PauseLoop(s, keys).consumed <= j + 1
        {
          if j > 0 {
            assert keys[j] == rest[j - 1];
            assert EndsWait(t, rest, j - 1);
          }
        }
      }
    }
  }

  /** A wait that runs out of keys met no key that ends it. */
  lemma {:induction false} PauseExhausted(s: Settings, keys: seq<int>)
    ensures PauseLoop(s, keys).exit == KeysExhausted ==> forall j :: 0 <= j < |keys| ==> !EndsWait(s, keys, j)
    decreases |keys|
  {
    if keys != [] && PauseLoop(s, keys).exit == KeysExhausted {
      var t := Apply(s, keys[0]);
      var rest := keys[1..];
      assert !t.ended && keys[0] != KeyPauseOrPlay;
      assert PauseLoop(t, rest).exit == KeysExhausted;
      PauseExhausted(t, rest);
      forall j | 0 <= j < |keys|
        ensures !EndsWait(s, keys, j)
      {
        assert keys[..j + 1][1..] == rest[..j];
        assert keys[..j + 1] == [keys[0]] + rest[..j];
        assert ApplyAll(s, keys[..j + 1]) == ApplyAll(t, rest[..j]);
        if j > 0 {
          assert keys[j] == rest[j - 1];
          assert !EndsWait(t, rest, j - 1);
        }
      }
    }
  }

  /** A wait that ends with space leaves the video playing. */
  lemma {:induction false} ResumeUnpauses(s: Settings, keys: seq<int>)
    requires s.paused
    ensures PauseLoop(s, keys).exit == Resumed ==> !PauseLoop(s, keys).settings.paused
    decreases |keys|
  {
    if keys != [] {
      var t := Apply(s, keys[0]);
      if !t.ended && keys[0] != KeyPauseOrPlay {
        ResumeUnpauses(t, keys[1..]);
      }
    }
  }

  /** The fullscreen keys take effect during the wait. */
  lemma ModeKeyWhilePaused(s: Settings, m: FullScreenMode, rest: seq<int>)
    requires s.paused && !s.ended
    ensures PauseLoop(s, [ModeKey(m), KeyPauseOrPlay] + rest)
      == PauseOutcome(s.(paused := false, fullscreen := true, mode := m), Resumed, 2)
  {
    var keys := [ModeKey(m), KeyPauseOrPlay] + rest;
    assert keys[1..] == [KeyPauseOrPlay] + rest;
  }

  // ---------------------------------------------------------------------
  // What is displayed (handle_fullscreen_mode_image and the main loop)
  // ---------------------------------------------------------------------

  /** A frame as the decoder delivers it: nonempty, blue-green-red. */
  predicate Bgr(img: Frames.Image) {
    img.shape.channels == 3 && img.shape.height > 0 && img.shape.width > 0
  }

  /** The view the fullscreen mode names, before it is enlarged. */
  function ModeTransform(lib: Frames.Imaging, img: Frames.Image, m: FullScreenMode): (t: Frames.Image)
    requires img.shape.channels == 3
    ensures t.shape == img.shape
    ensures m == Original ==> t == img
    ensures m == Grayscale || m == EdgeDetect ==> Frames.IsGray(t)
    ensures m == Grayscale ==> forall r, c :: 0 <= r < img.shape.height && 0 <= c < img.shape.width ==>
      t.rows[r][c][0] == lib.luma(img.rows[r][c])
    ensures m == Blur ==> forall r, c, ch :: 0 <= r < img.shape.height && 0 <= c < img.shape.width && 0 <= ch < 3 ==>
      t.rows[r][c][ch] == lib.smooth(img, BlurKernelWidth, BlurKernelHeight, r, c, ch)
    ensures m == EdgeDetect ==> forall r, c :: 0 <= r < img.shape.height && 0 <= c < img.shape.width ==>
      t.rows[r][c][0] == if lib.edge(img, CannyMinThreshold, CannyMaxThreshold, r, c) then 255 else 0
  {
    match m
    case Original => img
    case Grayscale => Frames.Grayscale(lib, img)
    case Blur => Frames.Blur(lib, img, BlurKernelWidth, BlurKernelHeight)
    case EdgeDetect => Frames.EdgeDetect(lib, img, CannyMinThreshold, CannyMaxThreshold)
  }

  /** The fullscreen view: the selected view enlarged to the size of the whole grid. */
  function FullscreenModeImage(lib: Frames.Imaging, img: Frames.Image, m: FullScreenMode): (res: Frames.Image)
    requires Bgr(img)
    ensures res.shape == Frames.Shape(GridRows * img.shape.height, GridCols * img.shape.width, 3)
    ensures Frames.ResizedFrom(lib, ModeTransform(lib, img, m), GridCols, GridRows, res)
  {
    Frames.FullscreenImage(lib, ModeTransform(lib, img, m), GridCols, GridRows)
  }

  /** The 2 x 2 comparison view of a frame, with the kernel and thresholds of the program. */
  function ComparisonImage(lib: Frames.Imaging, img: Frames.Image): (res: Frames.Image)
    requires Bgr(img)
    ensures res.shape == Frames.Shape(2 * img.shape.height, 2 * img.shape.width, 3)
    ensures Frames.ComparisonBlocks(lib, img, BlurKernelWidth, BlurKernelHeight, CannyMinThreshold, CannyMaxThreshold, res)
  {
    Frames.ComparisonView(lib, img, BlurKernelWidth, BlurKernelHeight, CannyMinThreshold, CannyMaxThreshold).value
  }

  /**
   * The image displayed for a frame under the given settings. Both views
   * are twice the frame in each direction, so toggling fullscreen never
   * resizes the window.
   */
  function Render(lib: Frames.Imaging, s: Settings, img: Frames.Image): (res: Frames.Image)
    requires Bgr(img)
    ensures res.shape == Frames.Shape(2 * img.shape.height, 2 * img.shape.width, 3)
    ensures s.fullscreen ==> Frames.ResizedFrom(lib, ModeTransform(lib, img, s.mode), GridCols, GridRows, res)
    ensures !s.fullscreen ==>
      Frames.ComparisonBlocks(lib, img, BlurKernelWidth, BlurKernelHeight, CannyMinThreshold, CannyMaxThreshold, res)
  {
    if s.fullscreen then FullscreenModeImage(lib, img, s.mode) else ComparisonImage(lib, img)
  }

  // ---------------------------------------------------------------------
  // Seeking (get_frames_offset and the rewind / fast forward branches)
  // ---------------------------------------------------------------------

  /** The number of frames in five seconds of video. */
  function FramesOffset(fps: nat): (o: nat)
    ensures o % RewindFastForwardSeconds == 0 && o / RewindFastForwardSeconds == fps
  {
    fps * RewindFastForwardSeconds
  }

  /** Rewind: offset frames back, but not before the first frame. */
  function RewindTarget(current: nat, offset: nat): (c: nat)
    ensures c <= current && current - c <= offset
    ensures c == 0 || current - c == offset
  {
    if current >= offset then current - offset else 0
  }

  /** Fast forward: offset frames on, but not past the frame count. */
  function FastForwardTarget(current: nat, offset: nat, count: nat): (c: nat)
    ensures c <= count && c <= current + offset
    ensures c == count || c == current + offset
  {
    if current + offset <= count then current + offset else count
  }

  // ---------------------------------------------------------------------
  // The main loop (process_video)
  // ---------------------------------------------------------------------

  datatype RunExit =
    | Ended              // q was pressed
    | EndOfVideo         // the decoder had no frame left
    | PausedWithoutKeys  // paused, and no key left to press

  /** A frame that was displayed, and the settings it was displayed under. */
  datatype Shown = Shown(frame: nat, settings: Settings)

  datatype RunOutcome = RunOutcome(settings: Settings, shown: seq<Shown>, current: nat, exit: RunExit)

  /** What the top of the loop leaves: the settings, the keys not yet pressed, and whether it is still waiting. */
  datatype Wait = Wait(settings: Settings, rest: seq<int>, waiting: bool)

  /** The top of the loop: when paused, wait as handle_pause_play does. */
  function PauseStage(s: Settings, keys: seq<int>): (w: Wait)
    ensures |w.rest| <= |keys|
    ensures !s.paused ==> w == Wait(s, keys, false)
    ensures s.paused && !w.waiting ==> |w.rest| < |keys|
    ensures !w.waiting && !w.settings.ended ==> !w.settings.paused
    ensures w.waiting ==> w.settings.ended == s.ended
    ensures KeyRewind in w.rest ==> KeyRewind in keys
    ensures KeyFastForward in w.rest ==> KeyFastForward in keys
  {
    if !s.paused then Wait(s, keys, false)
    else
      ResumeUnpauses(s, keys);
      var o := PauseLoop(s, keys);
      Wait(o.settings, keys[o.consumed..], o.exit == KeysExhausted)
  }

  /** The key the one-millisecond poll reports: the next one pressed, or none. */
  function NextKey(keys: seq<int>): int {
    if keys == [] then NoKey else keys[0]
  }

  function Rest(keys: seq<int>): (rest: seq<int>)
    ensures keys == [] ==> rest == []
    ensures keys != [] ==> |rest| < |keys|
  {
    if keys == [] then [] else keys[1..]
  }

  /** A state the loop can be in at its top: a quit is never pending behind a pause. */
  predicate Coherent(s: Settings) {
    !(s.paused && s.ended)
  }

  /** One pass of the loop: it stops, or it displays a frame and carries on. */
  datatype Step =
    | Halt(settings: Settings, exit: RunExit)
    | Play(shown: Shown, settings: Settings, pos: nat, current: nat, rest: seq<int>)

  /**
   * One pass of the main loop as written: wait if paused, stop after a q,
   * read the frame at the decoder position pos, display it, poll a key and
   * apply it, and on rewind or fast forward move the program's frame counter
   * current and put the decoder there. Reads do not move current.
   */
  function LoopStep(count: nat, fps: nat, s: Settings, pos: nat, current: nat, keys: seq<int>): (st: Step)
    requires pos <= count && current <= count
    ensures st.Play? ==> st.pos <= count && st.current <= count
    ensures st.Play? ==> st.shown.frame == pos < count && !st.shown.settings.ended
    ensures st.Play? ==> !st.shown.settings.paused
    ensures st.Play? ==> |st.rest| < |keys| || (st.rest == keys && st.pos == pos + 1)
    ensures st.Play? && st.current != current ==> KeyRewind in keys || KeyFastForward in keys
    ensures st.Play? && KeyRewind in st.rest ==> KeyRewind in keys
    ensures st.Play? && KeyFastForward in st.rest ==> KeyFastForward in keys
    ensures st.Halt? && st.exit == Ended ==> st.settings.ended
    ensures Coherent(s) && st.Halt? ==> (st.settings.ended <==> st.exit == Ended)
    ensures Coherent(s) && st.Play? ==> Coherent(st.settings)
  {
    var w := PauseStage(s, keys);
    if w.waiting then Halt(w.settings, PausedWithoutKeys)
    else if w.settings.ended then Halt(w.settings, Ended)
    else if pos >= count then Halt(w.settings, EndOfVideo)
    else
      var key := NextKey(w.rest);
      var offset := FramesOffset(fps);
      var next :=
        if key == KeyRewind then RewindTarget(current, offset)
        else if key == KeyFastForward then FastForwardTarget(current, offset, count)
        else current;
      var nextPos := if key == KeyRewind || key == KeyFastForward then next else pos + 1;
      assert w.rest != [] ==> key == w.rest[0];
      Play(Shown(pos, w.settings), Apply(w.settings, key), nextPos, next, Rest(w.rest))
  }

  /** The main loop as written, pass after pass until it stops. */
  function Run(count: nat, fps: nat, s: Settings, pos: nat, current: nat, keys: seq<int>): (o: RunOutcome)
    requires pos <= count && current <= count
    ensures o.current <= count
    ensures o.exit == Ended ==> o.settings.ended
    ensures Coherent(s) ==> (o.settings.ended <==> o.exit == Ended)
    decreases |keys|, count - pos
  {
    match LoopStep(count, fps, s, pos, current, keys)
    case Halt(t, e) => RunOutcome(t, [], current, e)
    case Play(shown, t, p, c, rest) =>
      var o := Run(count, fps, t, p, c, rest);
      RunOutcome(o.settings, [shown] + o.shown, o.current, o.exit)
  }

  /** Frames pos, pos + 1, ..., pos + n - 1, all displayed under s. */
  function Consecutive(pos: nat, n: nat, s: Settings): (shown: seq<Shown>)
    ensures |shown| == n && forall i :: 0 <= i < n ==> shown[i] == Shown(pos + i, s)
  {
    seq(n, i requires 0 <= i < n => Shown(pos + i, s))
  }

  lemma ConsecutiveFirst(pos: nat, n: nat, next: nat, m: nat, s: Settings)
    requires n > 0 && next == pos + 1 && m == n - 1
    ensures Consecutive(pos, n, s) == [Shown(pos, s)] + Consecutive(next, m, s)
  {
    var a, b := Consecutive(pos, n, s), [Shown(pos, s)] + Consecutive(next, m, s);
    assert forall i :: 0 <= i < n ==> a[i] == b[i];
  }

  /** The outcome o, with the frames in shown displayed before it. */
  function After(shown: seq<Shown>, o: RunOutcome): RunOutcome {
    o.(shown := shown + o.shown)
  }

  /** Run takes the pass LoopStep describes: when it stops, nothing more is displayed. */
  lemma RunHalts(count: nat, fps: nat, s: Settings, pos: nat, current: nat, keys: seq<int>)
    requires pos <= count && current <= count && LoopStep(count, fps, s, pos, current, keys).Halt?
    ensures Run(count, fps, s, pos, current, keys) == RunOutcome(
      LoopStep(count, fps, s, pos, current, keys).settings, [], current, LoopStep(count, fps, s, pos, current, keys).exit)
  {
  }

  /** Run takes the pass LoopStep describes: when it plays, the frame comes before everything later. */
  lemma RunPlays(count: nat, fps: nat, s: Settings, pos: nat, current: nat, keys: seq<int>, st: Step)
    requires pos <= count && current <= count && st == LoopStep(count, fps, s, pos, current, keys) && st.Play?
    ensures Run(count, fps, s, pos, current, keys) == After([st.shown], Run(count, fps, st.settings, st.pos, st.current, st.rest))
  {
  }

  /** A poll that reports no key plays the next frame. */
  lemma IdleStep(count: nat, fps: nat, s: Settings, pos: nat, next: nat, current: nat, more: seq<int>)
    requires pos < count && next == pos + 1 && current <= count && !s.paused && !s.ended
    ensures Run(count, fps, s, pos, current, [NoKey] + more)
      == After([Shown(pos, s)], Run(count, fps, s, next, current, more))
  {
    var keys := [NoKey] + more;
    assert NextKey(keys) == NoKey && Rest(keys) == more;
    assert LoopStep(count, fps, s, pos, current, keys) == Play(Shown(pos, s), s, next, current, more);
  }

  /**
   * While no key is pressed the loop plays the next frame, one per poll:
   * n polls without a key display frames pos .. end - 1 and leave the
   * decoder at end.
   */
  lemma {:induction false} IdleFrames(count: nat, fps: nat, s: Settings, pos: nat, current: nat, n: nat, end: nat, rest: seq<int>)
    requires end == pos + n && end <= count && current <= count && !s.paused && !s.ended
    ensures Run(count, fps, s, pos, current, Presses(NoKey, n) + rest)
      == After(Consecutive(pos, n, s), Run(count, fps, s, end, current, rest))
    decreases n
  {
    if n == 0 {
      var r := Run(count, fps, s, end, current, rest);
      assert pos == end && Presses(NoKey, n) + rest == rest;
      assert Consecutive(pos, n, s) + r.shown == r.shown;
    } else {
      var next, m := pos + 1, n - 1;
      IdleFrames(count, fps, s, next, current, m, end, rest);
      IdleOneMore(count, fps, s, pos, next, current, n, m, end, rest);
    }
  }

  /** The inductive step of IdleFrames: one more poll without a key in front. */
  lemma IdleOneMore(count: nat, fps: nat, s: Settings, pos: nat, next: nat, current: nat, n: nat, m: nat, end: nat, rest: seq<int>)
    requires end == pos + n && end <= count && current <= count && !s.paused && !s.ended
    requires n > 0 && next == pos + 1 && m == n - 1
    requires Run(count, fps, s, next, current, Presses(NoKey, m) + rest)
      == After(Consecutive(next, m, s), Run(count, fps, s, end, current, rest))
    ensures Run(count, fps, s, pos, current, Presses(NoKey, n) + rest)
      == After(Consecutive(pos, n, s), Run(count, fps, s, end, current, rest))
  {
    var r := Run(count, fps, s, end, current, rest);
    var more := Presses(NoKey, m) + rest;
    PressOneMore(NoKey, n, m, rest);
    IdleStep(count, fps, s, pos, next, current, more);
    ConsecutiveFirst(pos, n, next, m, s);
    AfterAfter([Shown(pos, s)], Consecutive(next, m, s), r);
  }

  lemma AfterAfter(a: seq<Shown>, b: seq<Shown>, o: RunOutcome)
    ensures After(a, After(b, o)) == After(a + b, o)
  {
    assert a + (b + o.shown) == (a + b) + o.shown;
  }

  /** With no key pressed at all, every frame from pos on is displayed, in order. */
  lemma {:induction false} RunWithoutKeys(count: nat, fps: nat, s: Settings, pos: nat, current: nat)
    requires pos <= count && current <= count && !s.paused && !s.ended
    ensures Run(count, fps, s, pos, current, [])
      == RunOutcome(s, Consecutive(pos, count - pos, s), current, EndOfVideo)
    decreases count - pos
  {
    if pos < count {
      var next, m := pos + 1, count - pos - 1;
      RunWithoutKeys(count, fps, s, next, current);
      ConsecutiveFirst(pos, count - pos, next, m, s);
    }
  }

  /** A q polled while frame pos is displayed ends the loop right after it. */
  lemma QuitStep(count: nat, fps: nat, s: Settings, pos: nat, current: nat, more: seq<int>)
    requires pos < count && current <= count && !s.paused && !s.ended
    ensures Run(count, fps, s, pos, current, [KeyQuit] + more)
      == RunOutcome(s.(ended := true), [Shown(pos, s)], current, Ended)
  {
    var keys := [KeyQuit] + more;
    assert NextKey(keys) == KeyQuit && Rest(keys) == more;
    assert LoopStep(count, fps, s, pos, current, keys) == Play(Shown(pos, s), s.(ended := true), pos + 1, current, more);
    assert LoopStep(count, fps, s.(ended := true), pos + 1, current, more) == Halt(s.(ended := true), Ended);
  }

  /** Keys other than space leave the paused flag to itself. */
  lemma {:induction false} PausedUntouched(s: Settings, b: bool, keys: seq<int>)
    requires forall i :: 0 <= i < |keys| ==> keys[i] != KeyPauseOrPlay
    ensures ApplyAll(s.(paused := b), keys) == ApplyAll(s, keys).(paused := b)
    decreases |keys|
  {
    if keys != [] {
      assert Apply(s.(paused := b), keys[0]) == Apply(s, keys[0]).(paused := b);
      PausedUntouched(Apply(s, keys[0]), b, keys[1..]);
    }
  }

  /** Paused, keys other than space and q are applied one by one until space resumes. */
  lemma {:induction false} WaitThenResume(s: Settings, wait: seq<int>, more: seq<int>)
    requires s.paused && !s.ended
    requires forall i :: 0 <= i < |wait| ==> wait[i] != KeyPauseOrPlay && wait[i] != KeyQuit
    ensures PauseLoop(s, wait + [KeyPauseOrPlay] + more)
      == PauseOutcome(ApplyAll(s, wait).(paused := false), Resumed, |wait| + 1)
    decreases |wait|
  {
    var keys := wait + [KeyPauseOrPlay] + more;
    if wait == [] {
      assert keys[0] == KeyPauseOrPlay;
    } else {
      var t := Apply(s, wait[0]);
      assert keys[0] == wait[0] && keys[1..] == wait[1..] + [KeyPauseOrPlay] + more;
      assert t.paused && !t.ended;
      WaitThenResume(t, wait[1..], more);
    }
  }

  /**
   * Space polled while frame pos is displayed pauses the video; the keys
   * pressed during the pause are applied, and space again resumes it with
   * the next frame, under the settings those keys made.
   */
  lemma PauseAndResume(count: nat, fps: nat, s: Settings, pos: nat, next: nat, current: nat, wait: seq<int>, more: seq<int>)
    requires pos < count && next == pos + 1 && current <= count && !s.paused && !s.ended
    requires forall i :: 0 <= i < |wait| ==> wait[i] != KeyPauseOrPlay && wait[i] != KeyQuit
    ensures Run(count, fps, s, pos, current, [KeyPauseOrPlay] + wait + [KeyPauseOrPlay] + more)
      == After([Shown(pos, s)], Run(count, fps, ApplyAll(s, wait), next, current, more))
  {
    var held := wait + [KeyPauseOrPlay] + more;
    var keys := [KeyPauseOrPlay] + held;
    assert keys == [KeyPauseOrPlay] + wait + [KeyPauseOrPlay] + more;
    var p := s.(paused := true);
    PauseStep(count, fps, s, pos, next, current, keys, held);
    RunPlays(count, fps, s, pos, current, keys, Play(Shown(pos, s), p, next, current, held));
    ResumeStep(count, fps, s, next, current, wait, more, held);
    SameStepSameRun(count, fps, p, ApplyAll(s, wait), next, current, held, more);
  }

  /** Space polled while frame pos is displayed: frame pos is shown and the next pass starts paused. */
  lemma PauseStep(count: nat, fps: nat, s: Settings, pos: nat, next: nat, current: nat, keys: seq<int>, held: seq<int>)
    requires pos < count && next == pos + 1 && current <= count && !s.paused && !s.ended
    requires keys == [KeyPauseOrPlay] + held
    ensures LoopStep(count, fps, s, pos, current, keys) == Play(Shown(pos, s), s.(paused := true), next, current, held)
  {
    assert NextKey(keys) == KeyPauseOrPlay && Rest(keys) == held;
  }

  /**
   * A pass that starts paused, waits through keys without space or q and
   * then reads space, goes on as a pass that starts unpaused under the
   * settings those keys made.
   */
  lemma ResumeStep(count: nat, fps: nat, s: Settings, next: nat, current: nat, wait: seq<int>, more: seq<int>, held: seq<int>)
    requires next <= count && current <= count && !s.paused && !s.ended
    requires forall i :: 0 <= i < |wait| ==> wait[i] != KeyPauseOrPlay && wait[i] != KeyQuit
    requires held == wait + [KeyPauseOrPlay] + more
    ensures LoopStep(count, fps, s.(paused := true), next, current, held)
      == LoopStep(count, fps, ApplyAll(s, wait), next, current, more)
  {
    var p := s.(paused := true);
    WaitThenResume(p, wait, more);
    PausedUntouched(s, true, wait);
    PausedUntouched(s, false, wait);
    assert s.(paused := false) == s;
    var t := ApplyAll(s, wait);
    assert ApplyAll(p, wait).(paused := false) == t;
    assert held[|wait| + 1..] == more;
    assert PauseStage(p, held) == Wait(t, more, false);
    assert PauseStage(t, more) == Wait(t, more, false);
  }

  /** Two starting points whose first passes agree run alike. */
  lemma SameStepSameRun(count: nat, fps: nat, s: Settings, t: Settings, pos: nat, current: nat, keys: seq<int>, more: seq<int>)
    requires pos <= count && current <= count
    requires LoopStep(count, fps, s, pos, current, keys) == LoopStep(count, fps, t, pos, current, more)
    ensures Run(count, fps, s, pos, current, keys) == Run(count, fps, t, pos, current, more)
  {
  }

  /**
   * A fast forward polled while frame pos is displayed moves both the frame
   * counter and the decoder to the counter plus five seconds, clamped to the
   * frame count.
   */
  lemma FastForwardStep(count: nat, fps: nat, s: Settings, pos: nat, current: nat, more: seq<int>)
    requires pos < count && current <= count && !s.paused && !s.ended
    ensures var target := FastForwardTarget(current, FramesOffset(fps), count);
      Run(count, fps, s, pos, current, [KeyFastForward] + more)
        == After([Shown(pos, s)], Run(count, fps, s, target, target, more))
  {
    var keys := [KeyFastForward] + more;
    var target := FastForwardTarget(current, FramesOffset(fps), count);
    assert NextKey(keys) == KeyFastForward && Rest(keys) == more;
    assert LoopStep(count, fps, s, pos, current, keys) == Play(Shown(pos, s), s, target, target, more);
  }

  /**
   * A rewind polled while frame pos is displayed moves both the frame
   * counter and the decoder five seconds back from the counter, clamped to
   * the first frame.
   */
  lemma RewindStep(count: nat, fps: nat, s: Settings, pos: nat, current: nat, more: seq<int>)
    requires pos < count && current <= count && !s.paused && !s.ended
    ensures var target := RewindTarget(current, FramesOffset(fps));
      Run(count, fps, s, pos, current, [KeyRewind] + more)
        == After([Shown(pos, s)], Run(count, fps, s, target, target, more))
  {
    var keys := [KeyRewind] + more;
    var target := RewindTarget(current, FramesOffset(fps));
    assert NextKey(keys) == KeyRewind && Rest(keys) == more;
    assert LoopStep(count, fps, s, pos, current, keys) == Play(Shown(pos, s), s, target, target, more);
  }

  /**
   * A q pressed while frame pos + n is displayed, after n frames without a
   * key, ends the loop with exactly n + 1 frames displayed.
   */
  lemma QuitAfter(count: nat, fps: nat, s: Settings, pos: nat, current: nat, n: nat)
    requires pos + n < count && current <= count && !s.paused && !s.ended
    ensures Run(count, fps, s, pos, current, Presses(NoKey, n) + [KeyQuit]).exit == Ended
    ensures Run(count, fps, s, pos, current, Presses(NoKey, n) + [KeyQuit]).shown == Consecutive(pos, n + 1, s)
  {
    var end := pos + n;
    IdleFrames(count, fps, s, pos, current, n, end, [KeyQuit]);
    assert [KeyQuit] == [KeyQuit] + [];
    QuitStep(count, fps, s, end, current, []);
    assert Consecutive(pos, n, s) + [Shown(end, s)] == Consecutive(pos, n + 1, s);
  }

  /** Once q has been pressed no frame is read any more. */
  lemma EndedIsFinal(count: nat, fps: nat, s: Settings, pos: nat, current: nat, keys: seq<int>)
    requires pos <= count && current <= count && s.ended
    ensures Run(count, fps, s, pos, current, keys).shown == []
    ensures Run(count, fps, s, pos, current, keys).current == current
  {
  }

  /** Only frames the video has are displayed, none while paused and none after a q. */
  lemma {:induction false} ShownFrames(count: nat, fps: nat, s: Settings, pos: nat, current: nat, keys: seq<int>)
    requires pos <= count && current <= count
    ensures forall i :: 0 <= i < |Run(count, fps, s, pos, current, keys).shown| ==>
      Run(count, fps, s, pos, current, keys).shown[i].frame < count &&
      !Run(count, fps, s, pos, current, keys).shown[i].settings.ended &&
      !Run(count, fps, s, pos, current, keys).shown[i].settings.paused
    decreases |keys|, count - pos
  {
    var st := LoopStep(count, fps, s, pos, current, keys);
    if st.Play? {
      ShownFrames(count, fps, st.settings, st.pos, st.current, st.rest);
      var tail := Run(count, fps, st.settings, st.pos, st.current, st.rest).shown;
      var whole := [st.shown] + tail;
      assert forall i :: 0 <= i < |whole| ==> whole[i].frame < count && !whole[i].settings.ended && !whole[i].settings.paused by {
        forall i | 0 <= i < |whole| ensures whole[i].frame < count && !whole[i].settings.ended && !whole[i].settings.paused {
          if i > 0 {
            assert whole[i] == tail[i - 1];
          }
        }
      }
      assert Run(count, fps, s, pos, current, keys).shown == whole;
    }
  }

  /** The frame counter moves only on rewind and fast forward. */
  lemma {:induction false} CurrentOnlyOnSeek(count: nat, fps: nat, s: Settings, pos: nat, current: nat, keys: seq<int>)
    requires pos <= count && current <= count
    requires KeyRewind !in keys && KeyFastForward !in keys
    ensures Run(count, fps, s, pos, current, keys).current == current
    decreases |keys|, count - pos
  {
    var st := LoopStep(count, fps, s, pos, current, keys);
    if st.Play? {
      CurrentOnlyOnSeek(count, fps, st.settings, st.pos, st.current, st.rest);
    }
  }

  function FrameIndices(shown: seq<Shown>): (fs: seq<nat>)
    ensures |fs| == |shown| && forall i :: 0 <= i < |shown| ==> fs[i] == shown[i].frame
  {
    seq(|shown|, i requires 0 <= i < |shown| => shown[i].frame)
  }

  /**
   * Because reads do not move the frame counter, a fast forward pressed on
   * the last of seven frames at one frame per second goes back to frame 5
   * and plays frames 5 and 6 again.
   */
  lemma FastForwardReplaysFrames()
    ensures FrameIndices(Run(7, 1, InitialSettings, 0, 0, Presses(NoKey, 6) + [KeyFastForward]).shown)
      == [0, 1, 2, 3, 4, 5, 6, 5, 6]
  {
    var s := InitialSettings;
    IdleFrames(7, 1, s, 0, 0, 6, 6, [KeyFastForward]);
    assert [KeyFastForward] == [KeyFastForward] + [];
    FastForwardStep(7, 1, s, 6, 0, []);
    RunWithoutKeys(7, 1, s, 5, 5);
    var shown := Run(7, 1, s, 0, 0, Presses(NoKey, 6) + [KeyFastForward]).shown;
    assert shown == Consecutive(0, 6, s) + ([Shown(6, s)] + Consecutive(5, 2, s));
  }

  // ---------------------------------------------------------------------
  // The main loop with the frame counter kept at the decoder position
  // ---------------------------------------------------------------------

  /**
   * One pass of the main loop with the frame counter read back from the
   * decoder after every frame, so that it is always the index of the next
   * frame to read: seeks are then measured from pos + 1 after frame pos
   * was displayed.
   */
  function TrackedStep(count: nat, fps: nat, s: Settings, pos: nat, keys: seq<int>): (st: Step)
    requires pos <= count
    ensures st.Play? ==> st.pos <= count && st.current == st.pos
    ensures st.Play? ==> st.shown.frame == pos < count && !st.shown.settings.ended
    ensures st.Play? ==> |st.rest| < |keys| || (st.rest == keys && st.pos == pos + 1)
    ensures st.Play? && KeyRewind in st.rest ==> KeyRewind in keys
    ensures st.Play? && KeyRewind !in keys ==> pos < st.pos
  {
    var w := PauseStage(s, keys);
    if w.waiting then Halt(w.settings, PausedWithoutKeys)
    else if w.settings.ended then Halt(w.settings, Ended)
    else if pos >= count then Halt(w.settings, EndOfVideo)
    else
      var key := NextKey(w.rest);
      var offset := FramesOffset(fps);
      var next :=
        if key == KeyRewind then RewindTarget(pos + 1, offset)
        else if key == KeyFastForward then FastForwardTarget(pos + 1, offset, count)
        else pos + 1;
      assert w.rest != [] ==> key == w.rest[0];
      Play(Shown(pos, w.settings), Apply(w.settings, key), next, next, Rest(w.rest))
  }

  /** The main loop with the frame counter kept at the decoder position. */
  function RunTracked(count: nat, fps: nat, s: Settings, pos: nat, keys: seq<int>): (o: RunOutcome)
    requires pos <= count
    ensures o.current <= count
    ensures o.exit == Ended ==> o.settings.ended
    decreases |keys|, count - pos
  {
    match TrackedStep(count, fps, s, pos, keys)
    case Halt(t, e) => RunOutcome(t, [], pos, e)
    case Play(shown, t, p, _, rest) =>
      var o := RunTracked(count, fps, t, p, rest);
      RunOutcome(o.settings, [shown] + o.shown, o.current, o.exit)
  }

  /**
   * Without a rewind, the loop with a tracked frame counter displays every
   * frame at most once and in increasing order, starting at pos.
   */
  lemma {:induction false} TrackedNeverReplays(count: nat, fps: nat, s: Settings, pos: nat, keys: seq<int>)
    requires pos <= count && KeyRewind !in keys
    ensures forall i :: 0 <= i < |RunTracked(count, fps, s, pos, keys).shown| ==>
      pos <= RunTracked(count, fps, s, pos, keys).shown[i].frame < count
    ensures forall i, j :: 0 <= i < j < |RunTracked(count, fps, s, pos, keys).shown| ==>
      RunTracked(count, fps, s, pos, keys).shown[i].frame < RunTracked(count, fps, s, pos, keys).shown[j].frame
    decreases |keys|, count - pos
  {
    var st := TrackedStep(count, fps, s, pos, keys);
    if st.Play? {
      TrackedNeverReplays(count, fps, st.settings, st.pos, st.rest);
      var tail := RunTracked(count, fps, st.settings, st.pos, st.rest).shown;
      var whole := [st.shown] + tail;
      forall i | 0 <= i < |whole| ensures pos <= whole[i].frame < count {
        if i > 0 {
          assert whole[i] == tail[i - 1];
        }
      }
      forall i, j | 0 <= i < j < |whole| ensures whole[i].frame < whole[j].frame {
        assert whole[j] == tail[j - 1];
        if i > 0 {
          assert whole[i] == tail[i - 1];
        }
      }
      assert RunTracked(count, fps, s, pos, keys).shown == whole;
    }
  }

  // ---------------------------------------------------------------------
  // The controller as the program keeps it: four variables changed in place
  // ---------------------------------------------------------------------

  /** The four global settings of the program and the procedures that change them. */
  class Controls {
    var paused: bool
    var fullscreen: bool
    var ended: bool
    var mode: FullScreenMode

    /** The settings as a value. */
    function Snapshot(): Settings
      reads this
    {
      Settings(paused, fullscreen, ended, mode)
    }

    constructor ()
      ensures Snapshot() == InitialSettings
    {
      paused, fullscreen, ended, mode := false, false, false, Original;
    }

    /** change_settings: apply one key to the settings. */
    method ChangeSettings(key: int)
      modifies this
      ensures Snapshot() == Apply(old(Snapshot()), key)
    {
      if key == NoKey {
        return;
      }
      if key == KeyPauseOrPlay {
        paused := !paused;
      } else if key == KeyFullscreen {
        fullscreen := !fullscreen;
      } else if key == KeyOriginal {
        fullscreen, mode := true, Original;
      } else if key == KeyGrayscale {
        fullscreen, mode := true, Grayscale;
      } else if key == KeyBlur {
        fullscreen, mode := true, Blur;
      } else if key == KeyEdgeDetect {
        fullscreen, mode := true, EdgeDetect;
      } else if key == KeyQuit {
        ended := true;
      } else {
        return;
      }
    }

    /**
     * handle_pause_play: take keys from the front of keys, applying each,
     * until a q or a space; reports how it ended and how many keys it took.
     */
    method HandlePausePlay(keys: seq<int>) returns (exit: PauseExit, used: nat)
      modifies this
      ensures PauseOutcome(Snapshot(), exit, used) == PauseLoop(old(Snapshot()), keys)
    {
      used := 0;
      while used < |keys|
        invariant used <= |keys|
        invariant PauseLoop(old(Snapshot()), keys) == Shifted(PauseLoop(Snapshot(), keys[used..]), used)
        decreases |keys| - used
      {
        var key := keys[used];
        assert keys[used..][1..] == keys[used + 1..];
        ChangeSettings(key);
        used := used + 1;
        if ended {
          return Stopped, used;
        }
        if key == KeyPauseOrPlay {
          return Resumed, used;
        }
      }
      return KeysExhausted, used;
    }

    /** The top of the while loop of process_video: when paused, wait as handle_pause_play does. */
    method WaitIfPaused(keys: seq<int>) returns (rest: seq<int>, waiting: bool)
      modifies this
      ensures Wait(Snapshot(), rest, waiting) == PauseStage(old(Snapshot()), keys)
    {
      rest, waiting := keys, false;
      if paused {
        var e, used := HandlePausePlay(keys);
        rest, waiting := keys[used..], e == KeysExhausted;
      }
    }

    /**
     * One pass of the while loop of process_video: wait if paused, stop
     * after a q or at the end of the video, otherwise display frame pos,
     * poll one key, apply it and seek on rewind or fast forward. The pass
     * is returned as the step it takes, with the image displayed, if any.
     */
    method Pass(lib: Frames.Imaging, video: seq<Frames.Image>, fps: nat, pos: nat, current: nat, keys: seq<int>)
      returns (st: Step, displayed: seq<Frames.Image>)
      requires forall i :: 0 <= i < |video| ==> Bgr(video[i])
      requires pos <= |video| && current <= |video|
      modifies this
      ensures st == LoopStep(|video|, fps, old(Snapshot()), pos, current, keys)
      ensures st.settings == Snapshot()
      ensures st.Halt? ==> displayed == []
      ensures st.Play? ==> displayed == [Render(lib, st.shown.settings, video[pos])]
      ensures st.Halt? ==> Run(|video|, fps, old(Snapshot()), pos, current, keys) == RunOutcome(Snapshot(), [], current, st.exit)
      ensures st.Play? ==>
        Run(|video|, fps, old(Snapshot()), pos, current, keys)
          == After([st.shown], Run(|video|, fps, Snapshot(), st.pos, st.current, st.rest))
    {
      ghost var s := Snapshot();
      var rest, waiting := WaitIfPaused(keys);
      if waiting {
        st, displayed := Halt(Snapshot(), PausedWithoutKeys), [];
      } else if ended {
        st, displayed := Halt(Snapshot(), Ended), [];
      } else if pos >= |video| {
        st, displayed := Halt(Snapshot(), EndOfVideo), [];
      } else {
        st, displayed := Show(lib, video, fps, pos, current, rest);
      }
      assert st == LoopStep(|video|, fps, s, pos, current, keys);
      if st.Halt? {
        RunHalts(|video|, fps, s, pos, current, keys);
      } else {
        RunPlays(|video|, fps, s, pos, current, keys, st);
      }
    }

    /**
     * The rest of a pass once the video is playing: display frame pos, poll
     * one key, apply it, and seek on rewind or fast forward.
     */
    method Show(lib: Frames.Imaging, video: seq<Frames.Image>, fps: nat, pos: nat, current: nat, keys: seq<int>)
      returns (st: Step, displayed: seq<Frames.Image>)
      requires forall i :: 0 <= i < |video| ==> Bgr(video[i])
      requires pos < |video| && current <= |video| && !paused && !ended
      modifies this
      ensures st == LoopStep(|video|, fps, old(Snapshot()), pos, current, keys)
      ensures st.settings == Snapshot()
      ensures displayed == [Render(lib, old(Snapshot()), video[pos])]
    {
      var view := Display(lib, video[pos]);
      st := Poll(|video|, fps, pos, current, keys);
      displayed := [view];
    }

    /** The image shown for img: the chosen fullscreen view, or the 2 x 2 comparison. */
    method Display(lib: Frames.Imaging, img: Frames.Image) returns (view: Frames.Image)
      requires Bgr(img)
      ensures view == Render(lib, Snapshot(), img)
    {
      if fullscreen {
        view := FullscreenModeImage(lib, img, mode);
      } else {
        view := ComparisonImage(lib, img);
      }
    }

    /**
     * Poll one key after frame pos was shown, apply it, and seek on rewind
     * or fast forward.
     */
    method Poll(count: nat, fps: nat, pos: nat, current: nat, keys: seq<int>) returns (st: Step)
      requires pos < count && current <= count && !paused && !ended
      modifies this
      ensures st == LoopStep(count, fps, old(Snapshot()), pos, current, keys)
      ensures st.settings == Snapshot()
    {
      var frame := Shown(pos, Snapshot());
      var key := if keys == [] then NoKey else keys[0];
      var rest := if keys == [] then [] else keys[1..];
      ChangeSettings(key);
      var next, nextPos := current, pos + 1;
      if key == KeyRewind {
        var offset := FramesOffset(fps);
        next := if current >= offset then current - offset else 0;
        nextPos := next;
      } else if key == KeyFastForward {
        var offset := FramesOffset(fps);
        next := if current + offset <= count then current + offset else count;
        nextPos := next;
      }
      st := Play(frame, Snapshot(), nextPos, next, rest);
    }

    /**
     * process_video: play the video from its first frame, displaying one
     * image per frame read, until a q, the end of the video, or a pause
     * with no key left to end it. The frame counter starts at 0 and only
     * rewind and fast forward change it; reading a frame does not.
     */
    method ProcessVideo(lib: Frames.Imaging, video: seq<Frames.Image>, fps: nat, keys: seq<int>)
      returns (views: seq<Frames.Image>, exit: RunExit)
      requires forall i :: 0 <= i < |video| ==> Bgr(video[i])
      modifies this
      ensures var o := Run(|video|, fps, old(Snapshot()), 0, 0, keys);
        && Snapshot() == o.settings
        && exit == o.exit
        && InVideo(o.shown, |video|)
        && views == Displayed(lib, video, o.shown)
    {
      var count := |video|;
      var pos: nat, current: nat, rest := 0, 0, keys;
      ghost var shown: seq<Shown> := [];
      ghost var whole := Run(count, fps, Snapshot(), 0, 0, keys);
      views := [];
      assert whole == After(shown, Run(count, fps, Snapshot(), pos, current, rest));
      while true
        invariant pos <= count && current <= count
        invariant whole == After(shown, Run(count, fps, Snapshot(), pos, current, rest))
        invariant InVideo(shown, count) && views == Displayed(lib, video, shown)
        decreases |rest|, count - pos
      {
        var st, displayed := Pass(lib, video, fps, pos, current, rest);
        if st.Halt? {
          assert shown + [] == shown;
          return views, st.exit;
        }
        ghost var next := Run(count, fps, st.settings, st.pos, st.current, st.rest);
        AfterAfter(shown, [st.shown], next);
        DisplayedSnoc(lib, video, shown, st.shown);
        views, shown := views + displayed, shown + [st.shown];
        pos, current, rest := st.pos, st.current, st.rest;
      }
    }
  }

  /** Every displayed frame is one the video has. */
  predicate InVideo(shown: seq<Shown>, count: nat) {
    forall i :: 0 <= i < |shown| ==> shown[i].frame < count
  }

  /** The images displayed for the frames in shown, in order. */
  function Displayed(lib: Frames.Imaging, video: seq<Frames.Image>, shown: seq<Shown>): (views: seq<Frames.Image>)
    requires forall i :: 0 <= i < |video| ==> Bgr(video[i])
    requires InVideo(shown, |video|)
    ensures |views| == |shown|
    ensures forall i :: 0 <= i < |shown| ==> views[i] == Render(lib, shown[i].settings, video[shown[i].frame])
  {
    seq(|shown|, i requires 0 <= i < |shown| => Render(lib, shown[i].settings, video[shown[i].frame]))
  }

  lemma DisplayedSnoc(lib: Frames.Imaging, video: seq<Frames.Image>, shown: seq<Shown>, x: Shown)
    requires forall i :: 0 <= i < |video| ==> Bgr(video[i])
    requires InVideo(shown, |video|) && x.frame < |video|
    ensures InVideo(shown + [x], |video|)
    ensures Displayed(lib, video, shown + [x]) == Displayed(lib, video, shown) + [Render(lib, x.settings, video[x.frame])]
  {
    var a, b := Displayed(lib, video, shown + [x]), Displayed(lib, video, shown) + [Render(lib, x.settings, video[x.frame])];
    forall i | 0 <= i < |shown| + 1 ensures a[i] == b[i] {
      if i < |shown| {
        assert (shown + [x])[i] == shown[i];
      }
    }
  }

  /** A wait outcome seen from further back in the key sequence. */
  function Shifted(o: PauseOutcome, n: nat): PauseOutcome {
    o.(consumed := o.consumed + n)
  }
}
