/**
 * The editor page's state and handlers (nextjs-frontend/src/app/editor/page.tsx): the
 * record of tracks, the play/seek flags and the focused track, and the handlers that fan
 * one user action out to every registered player.  Each `forEach` over the record is a
 * loop over the ids in JavaScript's enumeration order, and each handler is proved to
 * produce the record that the corresponding function of module Mixer describes.
 */
module Editor {
  import opened Wrappers
  import opened Mixer

  /** What a key press does; `Ignore` also means the browser's default action is kept. */
  datatype KeyAction = PlayPause | SkipBackward | SkipForward | Ignore

  const SpaceKey: int := 32
  const LeftArrowKey: int := 37
  const RightArrowKey: int := 39

  /** The key dispatch of `handleKeyDown`: space, left arrow and right arrow; nothing else. */
  function KeyActionOf(keyCode: int): (a: KeyAction)
    ensures a == PlayPause <==> keyCode == 32
    ensures a == SkipBackward <==> keyCode == 37
    ensures a == SkipForward <==> keyCode == 39
    ensures a == Ignore <==> keyCode !in {32, 37, 39}
  {
    if keyCode == SpaceKey then PlayPause
    else if keyCode == LeftArrowKey then SkipBackward
    else if keyCode == RightArrowKey then SkipForward
    else Ignore
  }

  // ---------------------------------------------------------------- the forEach loops
  // Each visits the record in enumeration order and calls the player's setter on every
  // entry that has a player; a call on a player is the replacement of that entry.

  /** `Object.values(trackStates).forEach(s => { if (s.ws) s.ws.setVolume(s.volume) })`. */
  method RestorePass(m0: Tracks) returns (m: Tracks)
    ensures m == Restore(m0)
  {
    m := m0;
    var ks := EnumerationOrder(m0);
    var i := 0;
    while i < |ks|
      invariant 0 <= i <= |ks|
      invariant m.Keys == m0.Keys
      invariant forall id :: id in m ==> m[id] == if id in ks[..i] then RestoreEntry(m0[id]) else m0[id]
    {
      var id := ks[i];
      var e := m[id];
      if e.ws.Some? {
        m := m[id := e.(ws := Some(e.ws.value.(volume := e.volume)))];
      }
      assert ks[..i + 1] == ks[..i] + [id];
      i := i + 1;
    }
    assert ks[..i] == ks;
  }

  /**
   * The focus loop of `setFocusedLayer(f)`: 0 for every other player, the stored volume
   * for `f`'s.  An entry without a player falls into the second branch and throws there;
   * `ok` is false exactly then, and the entries before it keep their new volume.
   */
  method FocusPass(m0: Tracks, f: nat) returns (m: Tracks, ok: bool)
    ensures ok <==> AllRegistered(m0)
    ensures ok ==> m == Solo(m0, f)
    ensures !ok ==> m == SoloBelow(m0, f, FirstUnregistered(m0).value)
  {
    m := m0;
    var ks := EnumerationOrder(m0);
    ok := true;
    var i := 0;
    while i < |ks|
      invariant 0 <= i <= |ks|
      invariant m.Keys == m0.Keys
      invariant forall j :: 0 <= j < i ==> Registered(m0, ks[j])
      invariant forall id :: id in m ==> m[id] == if id in ks[..i] then SoloEntry(id, f, m0[id]) else m0[id]
    {
      var id := ks[i];
      var e := m[id];
      if id != f && e.ws.Some? {
        m := m[id := e.(ws := Some(e.ws.value.(volume := 0.0)))];
      } else if e.ws.Some? {
        m := m[id := e.(ws := Some(e.ws.value.(volume := e.volume)))];
      } else {
        ok := false;
        break;
      }
      assert ks[..i + 1] == ks[..i] + [id];
      i := i + 1;
    }
    if ok {
      assert ks[..i] == ks;
      VisitedAllRegistered(m0, ks);
    } else {
      StopIsFirstUnregistered(m0, ks, i);
    }
  }

  /** `forEach(({ws}) => { if (ws) ws.playPause() })`. */
  method TogglePass(m0: Tracks) returns (m: Tracks)
    ensures m == TogglePlayers(m0)
  {
    m := m0;
    var ks := EnumerationOrder(m0);
    var i := 0;
    while i < |ks|
      invariant 0 <= i <= |ks|
      invariant m.Keys == m0.Keys
      invariant forall id :: id in m ==> m[id] == if id in ks[..i] then ToggleEntry(m0[id]) else m0[id]
    {
      var id := ks[i];
      var e := m[id];
      if e.ws.Some? {
        m := m[id := e.(ws := Some(e.ws.value.(playing := !e.ws.value.playing)))];
      }
      assert ks[..i + 1] == ks[..i] + [id];
      i := i + 1;
    }
    assert ks[..i] == ks;
  }

  /** `forEach(({ws}) => { if (ws) ws.setTime(t) })`. */
  method SeekPass(m0: Tracks, t: real) returns (m: Tracks)
    ensures m == SetTimes(m0, t)
  {
    m := m0;
    var ks := EnumerationOrder(m0);
    var i := 0;
    while i < |ks|
      invariant 0 <= i <= |ks|
      invariant m.Keys == m0.Keys
      invariant forall id :: id in m ==> m[id] == if id in ks[..i] then SeekEntry(m0[id], t) else m0[id]
    {
      var id := ks[i];
      var e := m[id];
      if e.ws.Some? {
        m := m[id := e.(ws := Some(e.ws.value.(time := t)))];
      }
      assert ks[..i + 1] == ks[..i] + [id];
      i := i + 1;
    }
    assert ks[..i] == ks;
  }

  /** `Object.values(trackStates).find(({ws}) => ws)?.ws`: the player of the lowest registered id. */
  method FindPlayer(m: Tracks) returns (ws: Option<Player>)
    ensures ws.None? <==> FirstPlayer(m).None?
    ensures ws.Some? ==> ws.value == m[FirstPlayer(m).value].ws.value
  {
    var ks := EnumerationOrder(m);
    var i := 0;
    while i < |ks|
      invariant 0 <= i <= |ks|
      invariant forall j :: 0 <= j < i ==> !Registered(m, ks[j])
    {
      var id := ks[i];
      if m[id].ws.Some? {
        assert Registered(m, id);
        var first := FirstPlayer(m);
        assert first == Some(id) by {
          forall k: nat | k < id ensures !Registered(m, k) {
            if k in m {
              PrefixIsBelow(ks, i, k);
            }
          }
          assert !(first.value < id) && !(id < first.value);
        }
        return m[id].ws;
      }
      i := i + 1;
    }
    assert forall id :: !Registered(m, id) by {
      forall id | id in m ensures !Registered(m, id) {
        var j :| 0 <= j < |ks| && ks[j] == id;
      }
    }
    return None;
  }

  class EditorPage {
    var isPlaying: bool
    var trackStates: Tracks
    /** Set while one seek is being propagated, so the seeks it causes are not propagated again. */
    var isSeeking: bool
    var focused: Option<nat>

    constructor ()
      ensures !isPlaying && trackStates == map[] && !isSeeking && focused == None
      ensures InSync(trackStates, focused) && Aligned(trackStates)
    {
      isPlaying := false;
      trackStates := map[];
      isSeeking := false;
      focused := None;
    }

    /** A track's player is ready: (re)place its entry with the player and the initial volume. */
    method RegisterWaveSurfer(id: nat, ws: Player)
      modifies this
      ensures trackStates == old(trackStates)[id := TrackState(Some(ws), InitialVolume)]
      ensures isPlaying == old(isPlaying) && isSeeking == old(isSeeking) && focused == old(focused)
    {
      trackStates := trackStates[id := TrackState(Some(ws), InitialVolume)];
    }

    /** Slider or mute button of track `id`: clear another track's focus, then store and apply `newVolume`. */
    method UpdateTrackVolume(id: nat, newVolume: real)
      modifies this
      ensures focused == FocusAfterUpdate(old(focused), id)
      ensures trackStates == AfterUpdate(old(trackStates), old(focused), id, newVolume)
      ensures isPlaying == old(isPlaying) && isSeeking == old(isSeeking)
    {
      if focused.Some? && focused.value != id {
        var _ := SetFocusedLayer(None);
      }
      var track := if id in trackStates then Some(trackStates[id]) else None;
      var ws := if track.Some? then track.value.ws else None;
      if ws.Some? {
        ws := Some(ws.value.(volume := newVolume));
      }
      trackStates := trackStates[id := TrackState(ws, newVolume)];
    }

    /**
     * Solo button: with `None`, every player goes back to its stored volume; with `Some(f)`,
     * every player but `f`'s is silenced.  The source dereferences a missing player on the
     * focus path and throws; `ok` is false exactly then, the entries visited before the
     * throw keep their new volume, and `focused` is not updated.
     */
    method SetFocusedLayer(setId: Option<nat>) returns (ok: bool)
      modifies this
      ensures setId.None? ==> ok && trackStates == Restore(old(trackStates))
      ensures setId.Some? ==> (ok <==> AllRegistered(old(trackStates)))
      ensures setId.Some? && ok ==> trackStates == Solo(old(trackStates), setId.value)
      ensures setId.Some? && !ok ==>
        trackStates == SoloBelow(old(trackStates), setId.value, FirstUnregistered(old(trackStates)).value)
      ensures focused == if ok then setId else old(focused)
      ensures isPlaying == old(isPlaying) && isSeeking == old(isSeeking)
    {
      var m;
      if setId.None? {
        m := RestorePass(trackStates);
        ok := true;
      } else {
        m, ok := FocusPass(trackStates, setId.value);
      }
      trackStates := m;
      if ok {
        focused := setId;
      }
    }

    /** A player reports a seek to `newTime`: move every player there, unless a seek is already in flight. */
    method OnUniversalSeek(newTime: real)
      modifies this
      ensures old(isSeeking) ==> trackStates == old(trackStates) && isSeeking
      ensures !old(isSeeking) ==> trackStates == SetTimes(old(trackStates), newTime) && isSeeking
      ensures isPlaying == old(isPlaying) && focused == old(focused)
    {
      if isSeeking {
        return;
      }
      isSeeking := true;
      trackStates := SeekPass(trackStates, newTime);
    }

    /** The timer started by a seek has fired: seeks are propagated again. */
    method SeekSettled()
      modifies this
      ensures !isSeeking
      ensures trackStates == old(trackStates) && isPlaying == old(isPlaying) && focused == old(focused)
    {
      isSeeking := false;
    }

    /** Play/pause every registered player once and flip the page's playing flag. */
    method OnUniversalPlayPause()
      modifies this
      ensures trackStates == TogglePlayers(old(trackStates))
      ensures isPlaying == !old(isPlaying)
      ensures isSeeking == old(isSeeking) && focused == old(focused)
    {
      trackStates := TogglePass(trackStates);
      isPlaying := !isPlaying;
    }

    method OnUniversalSkipForward()
      modifies this
      ensures trackStates == AfterSkip(old(trackStates), SkipStep)
      ensures isPlaying == old(isPlaying) && isSeeking == old(isSeeking) && focused == old(focused)
    {
      SkipBy(SkipStep);
    }

    method OnUniversalSkipBackward()
      modifies this
      ensures trackStates == AfterSkip(old(trackStates), -SkipStep)
      ensures isPlaying == old(isPlaying) && isSeeking == old(isSeeking) && focused == old(focused)
    {
      SkipBy(-SkipStep);
    }

    /** The key handler: returns whether the key was handled (and its default action prevented). */
    method HandleKeyDown(keyCode: int) returns (prevented: bool)
      modifies this
      ensures prevented <==> KeyActionOf(keyCode) != Ignore
      ensures KeyActionOf(keyCode) == PlayPause ==>
        trackStates == TogglePlayers(old(trackStates)) && isPlaying == !old(isPlaying)
      ensures KeyActionOf(keyCode) == SkipBackward ==>
        trackStates == AfterSkip(old(trackStates), -SkipStep) && isPlaying == old(isPlaying)
      ensures KeyActionOf(keyCode) == SkipForward ==>
        trackStates == AfterSkip(old(trackStates), SkipStep) && isPlaying == old(isPlaying)
      ensures KeyActionOf(keyCode) == Ignore ==>
        trackStates == old(trackStates) && isPlaying == old(isPlaying)
      ensures isSeeking == old(isSeeking) && focused == old(focused)
    {
      match KeyActionOf(keyCode)
      case PlayPause =>
        OnUniversalPlayPause();
        prevented := true;
      case SkipBackward =>
        OnUniversalSkipBackward();
        prevented := true;
      case SkipForward =>
        OnUniversalSkipForward();
        prevented := true;
      case Ignore =>
        prevented := false;
    }

    /** Shared body of the two skip handlers. */
    method SkipBy(delta: real)
      modifies this
      ensures trackStates == AfterSkip(old(trackStates), delta)
      ensures isPlaying == old(isPlaying) && isSeeking == old(isSeeking) && focused == old(focused)
    {
      var anyWs := FindPlayer(trackStates);
      if anyWs.Some? {
        var newTime := anyWs.value.time + delta;
        trackStates := SeekPass(trackStates, newTime);
      }
    }
  }

  /**
   * A reachable throw: track 2's slider is moved before its player is ready, which creates
   * an entry with no player; soloing track 1 then throws after silencing nothing, and the
   * focus stays unset.
   */
  method SoloAfterEarlySliderMove()
  {
    var page := new EditorPage();
    page.RegisterWaveSurfer(1, Player(1.0, 0.0, false));
    page.UpdateTrackVolume(2, 0.5);
    assert page.trackStates[2].ws.None?;
    var ok := page.SetFocusedLayer(Some(1));
    assert !ok && page.focused == None;
    assert page.trackStates[1].ws == Some(Player(1.0, 0.0, false));
  }
}
