/**
 * The per-track control rules of one track row (nextjs-frontend/src/components/track.tsx).
 * The row has no state of its own: what it shows and what its buttons request are
 * functions of its id, the `volume` prop and the page's `focused` id.  The lemmas at the
 * end connect these rules with the page's handlers in module Mixer.
 */
module Track {
  import opened Wrappers
  import opened Mixer

  datatype Variant = Outline | Destructive | Success

  /** A request to the page's `updateTrackVolume`. */
  datatype VolumeRequest = VolumeRequest(id: nat, volume: real)

  /** A request to the page's `registerWaveSurfer`. */
  datatype Registration = Registration(id: nat, ws: Player)

  /**
   * JavaScript's `focused && focused != id`: `null` and the id 0 are falsy, so neither
   * counts as a focus here (the page itself does treat 0 as a focus).
   */
  predicate OtherFocused(id: nat, focused: Option<nat>)
    ensures OtherFocused(id, focused) ==> focused.Some? && focused != Some(id)
    ensures focused == Some(0) ==> !OtherFocused(id, focused)
  {
    focused.Some? && focused.value != 0 && focused.value != id
  }

  /** The row is drawn dimmed: always when silent, otherwise only while another track is focused. */
  predicate Dimmed(id: nat, volume: real, focused: Option<nat>)
    ensures volume == 0.0 ==> Dimmed(id, volume, focused)
    ensures focused.None? || focused == Some(id) ==> (Dimmed(id, volume, focused) <==> volume == 0.0)
  {
    volume == 0.0 || OtherFocused(id, focused)
  }

  /** The slider's value: 0 while another track is focused, otherwise the stored volume. */
  function SliderValue(id: nat, volume: real, focused: Option<nat>): (v: real)
    ensures v == 0.0 <==> (OtherFocused(id, focused) || volume == 0.0)
    ensures v != volume ==> OtherFocused(id, focused)
  {
    if OtherFocused(id, focused) then 0.0 else volume
  }

  function MuteVariant(id: nat, volume: real, focused: Option<nat>): (r: Variant)
    ensures r == Destructive <==> Dimmed(id, volume, focused)
    ensures r != Success
  {
    if volume == 0.0 || OtherFocused(id, focused) then Destructive else Outline
  }

  /** The mute button: full volume for a dimmed row, silence otherwise (the old volume is not kept). */
  function MuteClick(id: nat, volume: real, focused: Option<nat>): (r: VolumeRequest)
    ensures r.id == id
    ensures r.volume == 1.0 <==> MuteVariant(id, volume, focused) == Destructive
    ensures r.volume == 0.0 <==> MuteVariant(id, volume, focused) == Outline
  {
    if volume == 0.0 || OtherFocused(id, focused) then OnVolumeChange(id, 1.0) else OnVolumeChange(id, 0.0)
  }

  function SoloVariant(id: nat, focused: Option<nat>): (r: Variant)
    ensures r == Success <==> focused == Some(id)
    ensures r != Destructive
  {
    if focused == Some(id) then Success else Outline
  }

  /** The solo button: unfocus when this track is focused, otherwise focus it. */
  function SoloClick(id: nat, focused: Option<nat>): (r: Option<nat>)
    ensures r.None? <==> SoloVariant(id, focused) == Success
    ensures r.Some? ==> r.value == id
  {
    if focused == Some(id) then None else Some(id)
  }

  /** The player is ready: set it to the current volume prop, then register it under this row's id. */
  function OnReady(id: nat, volume: real, ws: Player): (r: Registration)
    ensures r.id == id
    ensures r.ws.volume == volume && r.ws.time == ws.time && r.ws.playing == ws.playing
  {
    Registration(id, ws.(volume := volume))
  }

  /** Slider moves and mute clicks are forwarded under this row's id. */
  function OnVolumeChange(id: nat, newVolume: real): (r: VolumeRequest)
    ensures r.id == id && r.volume == newVolume
  {
    VolumeRequest(id, newVolume)
  }

  // ---------------------------------------------------------------- with the page

  /** The record after the page handles a volume request. */
  function ApplyVolume(m: Tracks, focused: Option<nat>, r: VolumeRequest): Tracks {
    AfterUpdate(m, focused, r.id, r.volume)
  }

  /** The record after the page handles a registration made by `OnReady` with the page's volume prop. */
  function ApplyReady(m: Tracks, id: nat, ws: Player): Tracks {
    var r := OnReady(id, VolumeProp(m, id), ws);
    m[r.id := TrackState(Some(r.ws), InitialVolume)]
  }

  /** While the players are in sync, the slider shows exactly the volume the track's player plays at. */
  lemma SliderShowsPlayerVolume(m: Tracks, focused: Option<nat>, id: nat)
    requires InSync(m, focused) && Registered(m, id) && focused != Some(0)
    ensures SliderValue(id, VolumeProp(m, id), focused) == m[id].ws.value.volume
  {
  }

  /** While the players are in sync, a row is dimmed exactly when its player is silent. */
  lemma DimmedIffSilent(m: Tracks, focused: Option<nat>, id: nat)
    requires InSync(m, focused) && Registered(m, id) && focused != Some(0)
    ensures Dimmed(id, VolumeProp(m, id), focused) <==> m[id].ws.value.volume == 0.0
  {
  }

  /** Clicking mute and letting the page handle the request flips whether the row is dimmed. */
  lemma MuteClickFlipsDimming(m: Tracks, focused: Option<nat>, id: nat)
    ensures var r := MuteClick(id, VolumeProp(m, id), focused);
      var m' := ApplyVolume(m, focused, r);
      Dimmed(id, VolumeProp(m', id), FocusAfterUpdate(focused, id)) == !Dimmed(id, VolumeProp(m, id), focused)
  {
    var r := MuteClick(id, VolumeProp(m, id), focused);
    UpdateStoresVolume(m, focused, id, r.volume);
  }

  /** A volume change from a row reaches that row's track only: its volume prop becomes the new value. */
  lemma VolumeChangeReachesOwnTrack(m: Tracks, focused: Option<nat>, id: nat, v: real)
    ensures var m' := ApplyVolume(m, focused, OnVolumeChange(id, v));
      VolumeProp(m', id) == v && forall k :: k != id ==> VolumeProp(m', k) == VolumeProp(m, k)
  {
    UpdateStoresVolume(m, focused, id, v);
  }

  /** Two clicks on one row's solo button, with the page focusing in between, restore the focus when it was this track's or nobody's. */
  lemma SoloClickToggles(id: nat, focused: Option<nat>)
    ensures SoloClick(id, SoloClick(id, focused)) == (if focused == Some(id) then Some(id) else None)
    ensures SoloClick(id, focused) == Some(id) ==> SoloVariant(id, SoloClick(id, focused)) == Success
  {
  }

  /**
   * `Mixer.RegisterSync` for the player `OnReady` hands over, which plays at the row's volume
   * prop: the players stay in sync exactly when that prop is what the reset entry calls for.
   * So a track that loads while another is focused plays aloud (unless its prop is 0), and
   * one re-registered after a volume change plays at its old volume while its stored
   * volume is back at 1.
   */
  lemma ReadyKeepsSyncIff(m: Tracks, focused: Option<nat>, id: nat, ws: Player)
    requires InSync(m, focused)
    ensures InSync(ApplyReady(m, id, ws), focused) <==> VolumeProp(m, id) == Audible(id, InitialVolume, focused)
  {
    RegisterSync(m, focused, id, OnReady(id, VolumeProp(m, id), ws).ws);
  }
}
