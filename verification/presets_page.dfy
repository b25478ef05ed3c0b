/** The logic of the preset list page (ui/src/pages/Presets.jsx): the tile text colour,
    what a click on a tile does, and the error alert that clears itself. `fetch`,
    navigation and rendering are outside the model; a click yields the action it
    starts, and a send yields one of the abstract responses below. */
module PresetsPage {
  import opened Common
  import opened Models

  // ---------------------------------------------------------------------------
  // Tile text colour

  datatype TextColor = Black | White

  /** Brightness is above this value for black text. */
  const BrightnessThreshold: int := 125

  /** The weighted channel sum `299 red + 587 green + 114 blue`. */
  function WeightedSum(c: Color): int {
    299 * c.red + 587 * c.green + 114 * c.blue
  }

  /** `Math.round(WeightedSum / 1000)`. `Math.round` rounds halves upwards, so the
      result is the integer within half a unit of the exact quotient, ties going up. */
  function Brightness(c: Color): (b: int)
    ensures 1000 * b - 500 <= WeightedSum(c) < 1000 * b + 500
  {
    (WeightedSum(c) + 500) / 1000
  }

  /** `getTextColor`: black on bright tiles, white on dark ones. */
  function TextColorFor(c: Color): (t: TextColor)
    ensures t == Black <==> Brightness(c) > BrightnessThreshold
    ensures t == Black <==> WeightedSum(c) >= 125500
  {
    if Brightness(c) > BrightnessThreshold then Black else White
  }

  ghost predicate IsByteColor(c: Color) {
    0 <= c.red <= 255 && 0 <= c.green <= 255 && 0 <= c.blue <= 255
  }

  /** The weights sum to 1000, so the brightness of a byte colour is itself a byte. */
  lemma ByteBrightnessInRange(c: Color)
    requires IsByteColor(c)
    ensures 0 <= Brightness(c) <= 255
  {
  }

  lemma ExtremeColors()
    ensures TextColorFor(Color(255, 255, 255)) == Black
    ensures TextColorFor(Color(0, 0, 0)) == White
  {
  }

  /** Raising channels never lowers the brightness. */
  lemma BrightnessMonotonic(c: Color, c': Color)
    requires c.red <= c'.red && c.green <= c'.green && c.blue <= c'.blue
    ensures Brightness(c) <= Brightness(c')
  {
  }

  /** So a brighter tile never turns black text into white. */
  lemma TextColorMonotonic(c: Color, c': Color)
    requires c.red <= c'.red && c.green <= c'.green && c.blue <= c'.blue
    requires TextColorFor(c) == Black
    ensures TextColorFor(c') == Black
  {
  }

  // ---------------------------------------------------------------------------
  // Clicking a tile

  /** The route of the preset editor. */
  const EditRoute: string := "/editPreset"

  /** What a click starts: a navigation carrying the preset id, or a `POST /sendPreset`. */
  datatype ClickAction = Navigate(route: string, presetId: string) | SendPreset(presetId: string)

  /** `handlePresetClick`. */
  function HandlePresetClick(editMode: bool, preset: Preset): (a: ClickAction)
    ensures a.Navigate? <==> editMode
    ensures a.SendPreset? <==> !editMode
    ensures a.presetId == preset.id
    ensures a.Navigate? ==> a.route == EditRoute
  {
    if editMode then Navigate(EditRoute, preset.id) else SendPreset(preset.id)
  }

  /** How a send settles: a JSON reply whose `success` is truthy or not, or a rejected
      promise (network failure or unparsable body) with its text. */
  datatype SendResponse = Replied(success: bool) | Rejected(reason: string)

  const SendFailedMessage: string := "Something failed while sending preset!"
  const UnknownErrorPrefix: string := "Unknown Error: "

  /** The error message after a send settles, `current` being the message before. */
  function MessageAfterSend(current: string, response: SendResponse): (m: string)
    ensures response == Replied(true) ==> m == current
    ensures response == Replied(false) ==> m == SendFailedMessage
    ensures response.Rejected? ==> |m| >= |UnknownErrorPrefix| && m[..|UnknownErrorPrefix|] == UnknownErrorPrefix
    ensures response.Rejected? ==> m[|UnknownErrorPrefix|..] == response.reason
  {
    match response
    case Replied(success) => if !success then SendFailedMessage else current
    case Rejected(reason) => UnknownErrorPrefix + reason
  }

  // ---------------------------------------------------------------------------
  // The self-clearing error alert

  /** Milliseconds before the alert clears itself. */
  const AlertTimeout: nat := 5000

  /** The page's error state. `owned` is the interval the current effect run armed (the
      one its cleanup clears); `intervals` maps every live interval to the time it
      fires next; `nextId` numbers new intervals. */
  datatype Alert = Alert(
    clock: int,
    message: string,
    owned: Option<nat>,
    intervals: map<nat, int>,
    nextId: nat)

  /** The states the page can be in while mounted: an interval is live exactly when a
      message shows, that interval is the one the effect owns, and it fires within
      `AlertTimeout` of now. */
  ghost predicate Wf(a: Alert) {
    && (a.owned.Some? <==> a.message != "")
    && (a.owned.None? ==> a.intervals == map[])
    && (a.owned.Some? ==>
          && a.intervals.Keys == {a.owned.value}
          && a.owned.value < a.nextId
          && a.clock < a.intervals[a.owned.value] <= a.clock + AlertTimeout)
  }

  /** The cleanup returned by the effect: clear the interval it armed, if any. */
  function Cleanup(a: Alert): (r: Alert)
    ensures r.owned.None?
    ensures a.owned.Some? ==> r.intervals.Keys == a.intervals.Keys - {a.owned.value}
    ensures a.owned.None? ==> r.intervals == a.intervals
  {
    match a.owned
    case None => a
    case Some(id) => a.(owned := None, intervals := a.intervals - {id})
  }

  /** The effect body: arm a 5000 ms interval when a message shows. */
  function RunEffect(a: Alert): (r: Alert)
    requires a.owned.None?
    ensures a.message == "" ==> r == a
    ensures a.message != "" ==> r.owned == Some(a.nextId) && r.intervals == a.intervals[a.nextId := a.clock + AlertTimeout]
  {
    if a.message == "" then a
    else a.(owned := Some(a.nextId),
            intervals := a.intervals[a.nextId := a.clock + AlertTimeout],
            nextId := a.nextId + 1)
  }

  /** The first render: the message is empty and the effect arms nothing. */
  function Mount(now: int): (r: Alert)
    ensures Wf(r) && r.message == "" && r.intervals == map[] && r.clock == now
  {
    RunEffect(Alert(now, "", None, map[], 0))
  }

  /** `setErrorMessage(m)`. Setting the value already held causes no render, so the
      effect does not rerun; a different value reruns it: cleanup first, then the body. */
  function SetErrorMessage(a: Alert, m: string): (r: Alert)
    ensures m == a.message ==> r == a
    ensures r.message == m && r.clock == a.clock
    ensures Wf(a) ==> Wf(r)
    ensures Wf(a) && m != a.message && a.owned.Some? ==> a.owned.value !in r.intervals
    ensures Wf(a) && m != a.message && m != "" ==> r.intervals[r.owned.value] == a.clock + AlertTimeout
    ensures Wf(a) && m == "" ==> r.intervals == map[]
  {
    if m == a.message then a
    else RunEffect(Cleanup(a).(message := m))
  }

  /** Time passes by `dt` ms; the live interval fires if it is due, and its callback
      empties the message, which reruns the effect and clears the interval. */
  function Elapse(a: Alert, dt: nat): (r: Alert)
    requires Wf(a)
    ensures Wf(r)
    ensures r.clock == a.clock + dt
    ensures a.message != "" && a.intervals[a.owned.value] <= a.clock + dt ==> r.message == ""
    ensures a.message == "" || a.clock + dt < a.intervals[a.owned.value] ==> r == a.(clock := a.clock + dt)
  {
    match a.owned
    case None => a.(clock := a.clock + dt)
    case Some(id) =>
      var due := a.intervals[id];
      if due <= a.clock + dt then SetErrorMessage(a.(clock := due), "").(clock := a.clock + dt)
      else a.(clock := a.clock + dt)
  }

  /** Leaving the page runs the cleanup: no interval outlives it. */
  function Unmount(a: Alert): (r: Alert)
    requires Wf(a)
    ensures r.intervals == map[]
    ensures r.message == a.message
  {
    Cleanup(a)
  }

  /** A settled send updates the message as `MessageAfterSend` says. */
  function OnSendSettled(a: Alert, response: SendResponse): (r: Alert)
    ensures response == Replied(true) ==> r == a
    ensures response == Replied(false) ==> r.message == SendFailedMessage
    ensures response.Rejected? ==> r.message == UnknownErrorPrefix + response.reason
    ensures Wf(a) ==> Wf(r)
  {
    SetErrorMessage(a, MessageAfterSend(a.message, response))
  }

  /** At most one interval is ever live, and one is live exactly when a message shows. */
  lemma AtMostOneTimer(a: Alert)
    requires Wf(a)
    ensures |a.intervals| <= 1
    ensures |a.intervals| == 1 <==> a.message != ""
  {
  }

  /** A new message shows for exactly `AlertTimeout` ms when nothing else happens. */
  lemma ClearsAfterTimeout(a: Alert, m: string, dt: nat)
    requires Wf(a) && m != a.message && m != ""
    ensures Elapse(SetErrorMessage(a, m), dt).message == (if dt >= AlertTimeout then "" else m)
  {
  }

  /** A different message `d` ms into the first one's display restarts the countdown:
      the first interval, due at `AlertTimeout - d`, no longer clears anything. */
  lemma NewMessageRestartsTimer(a: Alert, m1: string, m2: string, d: nat, dt: nat)
    requires Wf(a) && m1 != a.message && m1 != ""
    requires m2 != m1 && m2 != "" && d < AlertTimeout
    ensures
      var shown := Elapse(SetErrorMessage(a, m1), d);
      Elapse(SetErrorMessage(shown, m2), dt).message == (if dt >= AlertTimeout then "" else m2)
  {
  }

  /** The same failure twice does not restart the countdown: the second
      `setErrorMessage` keeps the value, so the page neither renders nor rearms. */
  lemma RepeatedFailureKeepsDeadline(a: Alert, d: nat)
    requires Wf(a) && a.message != SendFailedMessage
    ensures
      var shown := Elapse(OnSendSettled(a, Replied(false)), d);
      d < AlertTimeout ==> OnSendSettled(shown, Replied(false)) == shown
  {
  }

  /** Letting time pass in two steps is the same as one step of the total. */
  lemma ElapseAdditive(a: Alert, d1: nat, d2: nat)
    requires Wf(a)
    ensures Elapse(Elapse(a, d1), d2) == Elapse(a, d1 + d2)
  {
  }
}
