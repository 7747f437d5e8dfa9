/**
 * The multi-track mixer state of the editor page (nextjs-frontend/src/app/editor/page.tsx),
 * as values: each track's player, reduced to what the page reads and sets, and the
 * page's record from track id to {player, stored volume}.  The functions here are the
 * specifications that the handlers of class Editor.EditorPage are proved against.
 */
module Mixer {
  import opened Wrappers

  /** A waveform player instance, reduced to its volume, playback position and play state. */
  datatype Player = Player(volume: real, time: real, playing: bool)

  /** One entry of `trackStates`: the registered player, if any, and the stored volume. */
  datatype TrackState = TrackState(ws: Option<Player>, volume: real)

  /** Track id to entry; ids are the integer-like keys JavaScript enumerates in ascending order. */
  type Tracks = map<nat, TrackState>

  /** Volume an entry gets on registration, and the volume shown for a track with no entry. */
  const InitialVolume: real := 1.0

  /** Seconds moved by one skip forward or backward. */
  const SkipStep: real := 5.0

  predicate Registered(m: Tracks, id: nat) {
    id in m && m[id].ws.Some?
  }

  predicate AllRegistered(m: Tracks) {
    forall id :: id in m ==> m[id].ws.Some?
  }

  /** The `volume` prop the page passes to track `id`. */
  function VolumeProp(m: Tracks, id: nat): (v: real)
    ensures id !in m ==> v == InitialVolume
  {
    if id in m then m[id].volume else InitialVolume
  }

  // ---------------------------------------------------------------- key order

  predicate Increasing(ks: seq<nat>) {
    forall i, j :: 0 <= i < j < |ks| ==> ks[i] < ks[j]
  }

  /** The least element of a non-empty set of ids. */
  ghost function Least(s: set<nat>): (k: nat)
    requires s != {}
    ensures k in s && forall j :: j in s ==> k <= j
  {
    var x :| x in s;
    if s == {x} then
      assert forall j :: j in s ==> j == x;
      x
    else
      var y := Least(s - {x});
      assert forall j :: j in s ==> j == x || j in s - {x};
      if x <= y then x else y
  }

  /** The order in which `Object.values` / `Object.entries` visit the page's record. */
  method EnumerationOrder(m: Tracks) returns (ks: seq<nat>)
    ensures Increasing(ks)
    ensures forall id :: id in ks <==> id in m
  {
    var rest := m.Keys;
    ks := [];
    while rest != {}
      invariant Increasing(ks)
      invariant forall id :: id in m <==> id in ks || id in rest
      invariant forall id :: id in ks ==> id !in rest
      invariant forall i, id :: 0 <= i < |ks| && id in rest ==> ks[i] < id
      decreases rest
    {
      ghost var w := Least(rest);
      var k :| k in rest && forall j :: j in rest ==> k <= j;
      ks := ks + [k];
      rest := rest - {k};
    }
  }

  /** Membership in a prefix of an increasing sequence is a bound on the id. */
  lemma PrefixIsBelow(ks: seq<nat>, i: nat, id: nat)
    requires Increasing(ks) && i < |ks| && id in ks
    ensures id in ks[..i] <==> id < ks[i]
  {
    var j :| 0 <= j < |ks| && ks[j] == id;
    if j < i {
      assert ks[..i][j] == id;
    }
  }

  /** A loop that visited every id and found a player at each has seen an all-registered record. */
  lemma VisitedAllRegistered(m: Tracks, ks: seq<nat>)
    requires forall id :: id in ks <==> id in m
    requires forall j :: 0 <= j < |ks| ==> Registered(m, ks[j])
    ensures AllRegistered(m)
  {
    forall id | id in m ensures m[id].ws.Some? {
      var j :| 0 <= j < |ks| && ks[j] == id;
    }
  }

  /** A loop in enumeration order that first meets an entry without a player at `ks[i]` stops at `FirstUnregistered`. */
  lemma StopIsFirstUnregistered(m: Tracks, ks: seq<nat>, i: nat)
    requires Increasing(ks) && (forall id :: id in ks <==> id in m)
    requires i < |ks| && m[ks[i]].ws.None?
    requires forall j :: 0 <= j < i ==> Registered(m, ks[j])
    ensures FirstUnregistered(m) == Some(ks[i])
    ensures forall id :: id in m ==> (id in ks[..i] <==> id < ks[i])
  {
    var stop := ks[i];
    forall id | id in m ensures id in ks[..i] <==> id < stop {
      PrefixIsBelow(ks, i, id);
    }
    var r := FirstUnregistered(m);
    forall id | id in m && id < stop ensures m[id].ws.Some? {
      var j :| 0 <= j < i && ks[..i][j] == id;
      assert ks[j] == id;
    }
    assert !(r.value < stop) && !(stop < r.value);
  }

  /** The lowest id with a registered player: the one `.find(({ws}) => ws)` returns. */
  ghost function FirstPlayer(m: Tracks): (r: Option<nat>)
    ensures r.None? <==> forall id :: !Registered(m, id)
    ensures r.Some? ==> Registered(m, r.value)
    ensures r.Some? ==> forall id: nat :: id < r.value ==> !Registered(m, id)
  {
    var s := set id | id in m && m[id].ws.Some?;
    assert forall id :: Registered(m, id) ==> id in s;
    if s == {} then None
    else
      var k := Least(s);
      assert Registered(m, k);
      Some(k)
  }

  /** The lowest id whose entry has no player: where focusing a track throws. */
  ghost function FirstUnregistered(m: Tracks): (r: Option<nat>)
    ensures r.None? <==> AllRegistered(m)
    ensures r.Some? ==> r.value in m && m[r.value].ws.None?
    ensures r.Some? ==> forall id :: id in m && id < r.value ==> m[id].ws.Some?
  {
    var s := set id | id in m && m[id].ws.None?;
    assert forall id :: id in m && m[id].ws.None? ==> id in s;
    if s == {} then None else Some(Least(s))
  }

  // ---------------------------------------------------------------- per-entry effects

  /** `ws.setVolume(volume)` with the entry's stored volume, when it has a player. */
  function RestoreEntry(e: TrackState): TrackState {
    if e.ws.Some? then e.(ws := Some(e.ws.value.(volume := e.volume))) else e
  }

  /** The focus loop's action on entry `id` that has a player: 0 unless it is the focused one. */
  function SoloEntry(id: nat, f: nat, e: TrackState): TrackState {
    if e.ws.Some? then e.(ws := Some(e.ws.value.(volume := if id == f then e.volume else 0.0))) else e
  }

  function SeekEntry(e: TrackState, t: real): TrackState {
    if e.ws.Some? then e.(ws := Some(e.ws.value.(time := t))) else e
  }

  function ToggleEntry(e: TrackState): TrackState {
    if e.ws.Some? then e.(ws := Some(e.ws.value.(playing := !e.ws.value.playing))) else e
  }

  // ---------------------------------------------------------------- whole-record effects

  /** Every player back at its stored volume: `setFocusedLayer(null)`. */
  function Restore(m: Tracks): (r: Tracks)
    ensures r.Keys == m.Keys
    ensures forall id :: id in m ==> r[id].volume == m[id].volume && r[id].ws.Some? == m[id].ws.Some?
    ensures forall id :: Registered(m, id) ==>
      r[id].ws.value == m[id].ws.value.(volume := m[id].volume)
  {
    map id | id in m :: RestoreEntry(m[id])
  }

  /** Track `f` soloed: `setFocusedLayer(f)` when every entry has a player. */
  function Solo(m: Tracks, f: nat): (r: Tracks)
    ensures r.Keys == m.Keys
    ensures forall id :: id in m ==> r[id].volume == m[id].volume && r[id].ws.Some? == m[id].ws.Some?
    ensures forall id :: Registered(m, id) ==>
      r[id].ws.value == m[id].ws.value.(volume := if id == f then m[id].volume else 0.0)
  {
    map id | id in m :: SoloEntry(id, f, m[id])
  }

  /** The focus loop stopped by a throw at id `stop`: only the entries before it were visited. */
  function SoloBelow(m: Tracks, f: nat, stop: nat): Tracks {
    map id | id in m :: if id < stop then SoloEntry(id, f, m[id]) else m[id]
  }

  /** Every player moved to time `t`: the loop of `onUniversalSeek` and of both skips. */
  function SetTimes(m: Tracks, t: real): (r: Tracks)
    ensures SameLayout(m, r)
    ensures forall id :: Registered(m, id) ==> r[id].ws.value == m[id].ws.value.(time := t)
  {
    map id | id in m :: SeekEntry(m[id], t)
  }

  /** Every player's play state flipped: the loop of `onUniversalPlayPause`. */
  function TogglePlayers(m: Tracks): (r: Tracks)
    ensures SameLayout(m, r)
    ensures forall id :: Registered(m, id) ==> r[id].ws.value == m[id].ws.value.(playing := !m[id].ws.value.playing)
  {
    map id | id in m :: ToggleEntry(m[id])
  }

  /** The `setTrackStates` updater of `updateTrackVolume`; creates a player-less entry for a new id. */
  function WithVolume(m: Tracks, id: nat, v: real): (r: Tracks)
    ensures r.Keys == m.Keys + {id} && r[id].volume == v
    ensures Registered(r, id) <==> Registered(m, id)
    ensures Registered(m, id) ==> r[id].ws.value == m[id].ws.value.(volume := v)
    ensures forall k :: k in m && k != id ==> r[k] == m[k]
  {
    var ws := if id in m then m[id].ws else None;
    m[id := TrackState(if ws.Some? then Some(ws.value.(volume := v)) else None, v)]
  }

  /** `updateTrackVolume` clears a focus held by another track. */
  function FocusAfterUpdate(focused: Option<nat>, id: nat): (r: Option<nat>)
    ensures r.None? || r == focused
    ensures focused == Some(id) ==> r == focused
    ensures r.None? && focused.Some? ==> focused.value != id
  {
    if focused.Some? && focused.value != id then None else focused
  }

  /** The record after `updateTrackVolume(id, v)`: unfocus first if another track was focused. */
  function AfterUpdate(m: Tracks, focused: Option<nat>, id: nat, v: real): (r: Tracks)
    ensures r.Keys == m.Keys + {id}
    ensures forall k :: k in m && k != id ==>
      r[k] == if FocusAfterUpdate(focused, id) == focused then m[k] else Restore(m)[k]
  {
    WithVolume(if focused.Some? && focused.value != id then Restore(m) else m, id, v)
  }

  /** The time every player is moved to by a skip of `delta`, if any player exists. */
  ghost function SkipTarget(m: Tracks, delta: real): (t: Option<real>)
    ensures t.Some? <==> exists id :: Registered(m, id)
  {
    match FirstPlayer(m)
    case None => None
    case Some(id) => Some(m[id].ws.value.time + delta)
  }

  ghost function AfterSkip(m: Tracks, delta: real): (r: Tracks)
    ensures SameLayout(m, r)
    ensures SkipTarget(m, delta).None? ==> r == m
    ensures SkipTarget(m, delta).Some? ==> forall id :: Registered(r, id) ==> r[id].ws.value.time == SkipTarget(m, delta).value
  {
    match SkipTarget(m, delta)
    case None => m
    case Some(t) => SetTimes(m, t)
  }

  // ---------------------------------------------------------------- invariants

  /** The volume track `id` should be heard at: silent while another track is focused. */
  function Audible(id: nat, stored: real, focused: Option<nat>): real {
    if focused.Some? && focused.value != id then 0.0 else stored
  }

  /** Every player plays at the volume its stored volume and the focus call for. */
  ghost predicate InSync(m: Tracks, focused: Option<nat>) {
    forall id :: Registered(m, id) ==> m[id].ws.value.volume == Audible(id, m[id].volume, focused)
  }

  /** Every player is at the same playback position. */
  ghost predicate Aligned(m: Tracks) {
    forall a, b :: Registered(m, a) && Registered(m, b) ==> m[a].ws.value.time == m[b].ws.value.time
  }

  /** Same ids, same players registered, same stored volumes. */
  predicate SameLayout(m: Tracks, m': Tracks) {
    m.Keys == m'.Keys &&
    forall id :: id in m ==> m'[id].ws.Some? == m[id].ws.Some? && m'[id].volume == m[id].volume
  }

  // ---------------------------------------------------------------- lemmas

  /** Focusing `f` leaves `f` at its stored volume, silences the others and touches no stored volume. */
  lemma SoloSyncs(m: Tracks, f: nat)
    ensures SameLayout(m, Solo(m, f))
    ensures InSync(Solo(m, f), Some(f))
  {
  }

  /** Clearing the focus puts every player back at its stored volume. */
  lemma RestoreSyncs(m: Tracks)
    ensures SameLayout(m, Restore(m))
    ensures InSync(Restore(m), None)
  {
  }

  /** Unfocusing after a solo is the same as unfocusing the state before it: a solo is undone. */
  lemma UnsoloUndoesSolo(m: Tracks, f: nat)
    ensures Restore(Solo(m, f)) == Restore(m)
  {
  }

  /** A volume change keeps the players in sync with the (possibly cleared) focus. */
  lemma UpdateKeepsSync(m: Tracks, focused: Option<nat>, id: nat, v: real)
    requires InSync(m, focused)
    ensures InSync(AfterUpdate(m, focused, id, v), FocusAfterUpdate(focused, id))
  {
    var m' := AfterUpdate(m, focused, id, v);
    var f' := FocusAfterUpdate(focused, id);
    forall k | Registered(m', k)
      ensures m'[k].ws.value.volume == Audible(k, m'[k].volume, f')
    {
      if k != id && focused.Some? && focused.value != id {
        assert m'[k] == RestoreEntry(m[k]);
      }
    }
  }

  /** A volume change stores `v` for `id`, sets its player (if any) to `v`, and no other stored volume changes. */
  lemma UpdateStoresVolume(m: Tracks, focused: Option<nat>, id: nat, v: real)
    ensures var m' := AfterUpdate(m, focused, id, v);
      m'.Keys == m.Keys + {id} && m'[id].volume == v && VolumeProp(m', id) == v &&
      (Registered(m, id) <==> Registered(m', id)) &&
      (Registered(m', id) ==> m'[id].ws.value.volume == v) &&
      forall k :: k in m && k != id ==> m'[k].volume == m[k].volume && (Registered(m, k) <==> Registered(m', k))
  {
  }

  /** A volume change for an id with no entry creates an entry with no player, after which focusing throws. */
  lemma UpdateUnknownIdLeavesNoPlayer(m: Tracks, focused: Option<nat>, id: nat, v: real)
    requires id !in m
    ensures !AllRegistered(AfterUpdate(m, focused, id, v))
    ensures FirstUnregistered(AfterUpdate(m, focused, id, v)).Some?
  {
    assert AfterUpdate(m, focused, id, v)[id].ws.None?;
  }

  /**
   * `registerWaveSurfer(id, ws)` resets the stored volume to 1 without touching the player,
   * so it keeps the players in sync exactly when the player already plays at the volume
   * the reset entry calls for.
   */
  lemma RegisterSync(m: Tracks, focused: Option<nat>, id: nat, ws: Player)
    requires InSync(m, focused)
    ensures InSync(m[id := TrackState(Some(ws), InitialVolume)], focused) <==> ws.volume == Audible(id, InitialVolume, focused)
  {
    var m' := m[id := TrackState(Some(ws), InitialVolume)];
    assert Registered(m', id);
  }

  /** Play/pause toggles each player once: twice is the identity, and no volume or time moves. */
  lemma PlayPauseTwiceRestores(m: Tracks)
    ensures TogglePlayers(TogglePlayers(m)) == m
    ensures SameLayout(m, TogglePlayers(m))
    ensures forall focused :: InSync(TogglePlayers(m), focused) <==> InSync(m, focused)
  {
    forall focused ensures InSync(TogglePlayers(m), focused) <==> InSync(m, focused) {
      var m' := TogglePlayers(m);
      if InSync(m', focused) {
        forall id | Registered(m, id) ensures m[id].ws.value.volume == Audible(id, m[id].volume, focused) {
          assert Registered(m', id);
        }
      }
    }
  }

  /** Setting one time on every player aligns them, and touches nothing else. */
  lemma SetTimesAligns(m: Tracks, t: real)
    ensures SameLayout(m, SetTimes(m, t))
    ensures Aligned(SetTimes(m, t))
    ensures forall id :: Registered(m, id) ==> SetTimes(m, t)[id].ws.value.time == t
    ensures forall focused :: InSync(SetTimes(m, t), focused) <==> InSync(m, focused)
  {
    forall focused ensures InSync(SetTimes(m, t), focused) <==> InSync(m, focused) {
      var m' := SetTimes(m, t);
      if InSync(m', focused) {
        forall id | Registered(m, id) ensures m[id].ws.value.volume == Audible(id, m[id].volume, focused) {
          assert Registered(m', id);
        }
      }
    }
  }

  /** Records with the same players registered have the same first player. */
  lemma FirstPlayerOfLayout(m: Tracks, m': Tracks)
    requires SameLayout(m, m')
    ensures FirstPlayer(m) == FirstPlayer(m')
  {
    var r, r' := FirstPlayer(m), FirstPlayer(m');
    assert forall id :: Registered(m, id) <==> Registered(m', id);
    if r.Some? && r'.Some? {
      assert !(r.value < r'.value) && !(r'.value < r.value);
    }
  }

  /** Skipping back after skipping forward returns aligned players to where they were. */
  lemma SkipBackUndoesSkipForward(m: Tracks)
    requires Aligned(m)
    ensures AfterSkip(AfterSkip(m, SkipStep), -SkipStep) == m
  {
    var first := FirstPlayer(m);
    if first.Some? {
      var t := m[first.value].ws.value.time;
      var m1 := SetTimes(m, t + SkipStep);
      SetTimesAligns(m, t + SkipStep);
      FirstPlayerOfLayout(m, m1);
      assert AfterSkip(m1, -SkipStep) == SetTimes(m1, t);
      assert SetTimes(m1, t) == m;
    }
  }
}
