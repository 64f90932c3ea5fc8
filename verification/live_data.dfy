/** The dashboard hook `useLiveData`: it announces itself to the relay and
    turns each relayed telemetry object into the four displayed fields.

    The effect that installs the handlers runs once and closes over the
    state of the first render, so a field missing from a message falls back
    to that first state (`undefined`), not to the previous reading. */
module LiveData {

  import opened Wrappers
  import opened Json
  import Relay
  import Text

  /** The hook's state. `None` is `undefined`. */
  datatype Display = Display(voltage: Option<Value>, current: Option<Value>,
                             power: Option<Value>, explanation: Value)

  /** The state before any message, also the fallback of every field. */
  const Initial: Display := Display(None, None, None, Str(""))

  /** What the hook sends when the socket opens. */
  const Announcement: string := "BROWSER"

  /** `a ?? b` on optional values. */
  function OrElse(a: Option<Value>, b: Option<Value>): Option<Value> {
    if a.Some? then a else b
  }

  /** The `onmessage` handler. `parsed` is `JSON.parse` of the message
      (`None` when it throws, and then the state is kept). */
  function OnMessage(shown: Display, parsed: Option<Object>): (next: Display)
    ensures parsed.None? ==> next == shown
    ensures parsed.Some? ==> next.voltage == Defined(parsed.value, "supply_voltage")
    ensures parsed.Some? ==> next.current == Defined(parsed.value, "supply_current")
    ensures parsed.Some? ==> next.power == Defined(parsed.value, "battery_current")
    ensures parsed.Some? && "explanation" in parsed.value && parsed.value["explanation"] != Null ==>
      next.explanation == parsed.value["explanation"]
    ensures parsed.Some? && ("explanation" !in parsed.value || parsed.value["explanation"] == Null) ==>
      next.explanation == Str("")
  {
    match parsed
    case None => shown
    case Some(obj) =>
      Display(OrElse(Defined(obj, "supply_voltage"), Initial.voltage),
              OrElse(Defined(obj, "supply_current"), Initial.current),
              OrElse(Defined(obj, "battery_current"), Initial.power),
              Defined(obj, "explanation").GetOr(Initial.explanation))
  }

  /** A reading absent from a message is shown as `undefined`, whatever was
      shown before: the previous reading is not kept. The new state depends
      on the message alone. */
  lemma MissingFieldIsForgotten(shown: Display, other: Display, obj: Object)
    requires "supply_voltage" !in obj
    ensures OnMessage(shown, Some(obj)).voltage == None
    ensures OnMessage(shown, Some(obj)) == OnMessage(other, Some(obj))
  {
  }

  /** The handler as its fallbacks evidently mean it: a reading absent
      from a message keeps the reading shown before. */
  function OnMessageKeeping(shown: Display, parsed: Option<Object>): (next: Display)
    ensures parsed.None? ==> next == shown
    ensures parsed.Some? ==> next.voltage == OrElse(Defined(parsed.value, "supply_voltage"), shown.voltage)
    ensures parsed.Some? ==> next.current == OrElse(Defined(parsed.value, "supply_current"), shown.current)
    ensures parsed.Some? ==> next.power == OrElse(Defined(parsed.value, "battery_current"), shown.power)
    ensures parsed.Some? ==> next.explanation == OnMessage(shown, parsed).explanation
  {
    match parsed
    case None => shown
    case Some(obj) =>
      Display(OrElse(Defined(obj, "supply_voltage"), shown.voltage),
              OrElse(Defined(obj, "supply_current"), shown.current),
              OrElse(Defined(obj, "battery_current"), shown.power),
              Defined(obj, "explanation").GetOr(Initial.explanation))
  }

  /** With the corrected handler a reading survives a message that lacks
      it, and a message carrying every reading shows the same as the
      handler as written. */
  lemma KeepingRemembersReadings(shown: Display, obj: Object)
    ensures "supply_voltage" !in obj ==> OnMessageKeeping(shown, Some(obj)).voltage == shown.voltage
    ensures "supply_current" !in obj ==> OnMessageKeeping(shown, Some(obj)).current == shown.current
    ensures "battery_current" !in obj ==> OnMessageKeeping(shown, Some(obj)).power == shown.power
    ensures Defined(obj, "supply_voltage").Some? && Defined(obj, "supply_current").Some?
            && Defined(obj, "battery_current").Some? ==>
      OnMessageKeeping(shown, Some(obj)) == OnMessage(shown, Some(obj))
  {
  }

  /** Two messages, the first with a voltage and the second without: as
      written the second one blanks the voltage, corrected it stays. */
  lemma SecondMessageBlanksVoltage(v: Value)
    requires v != Null
    ensures var first := map["supply_voltage" := v];
      var second: Object := map["explanation" := Str("ok")];
      && OnMessage(OnMessage(Initial, Some(first)), Some(second)).voltage == None
      && OnMessageKeeping(OnMessageKeeping(Initial, Some(first)), Some(second)).voltage == Some(v)
  {
  }

  /** The hook's announcement is the literal the relay recognises: it makes
      the hook's connection a viewer and sends nothing back. */
  lemma AnnouncementRegistersViewer(st: Relay.State, c: Relay.Conn, parsed: Option<Object>,
                                    verdict: Option<Object>, filler: Relay.Filler)
    ensures var out := Relay.Step(st, c, Announcement, parsed, verdict, filler);
      && c in out.next.viewers
      && out.outbox == []
  {
    Relay.ViewerRegistration(st, c, parsed, verdict, filler);
  }

  /** The relay's output as the hook shows it. Telemetry from a device
      reaches each viewer; its voltage, current and power readings are the
      device's own unless the anomaly service's reply carries the same
      field, and when the service is unreachable the viewer shows its fixed
      explanation. */
  lemma RelayedTelemetryDisplay(st: Relay.State, c: Relay.Conn, text: string, sensor: Object,
                                verdict: Option<Object>, filler: Relay.Filler, shown: Display)
    requires !Text.StartsWith(text, Relay.DevicePrefix) && text != Relay.ViewerAnnouncement
    requires c in st.flagged
    ensures var out := Relay.Step(st, c, text, Some(sensor), verdict, filler);
      forall i :: 0 <= i < |out.outbox| ==>
        && out.outbox[i].payload.Enriched?
        && var next := OnMessage(shown, Some(out.outbox[i].payload.fields));
        && (verdict.None? ==> next.explanation == Str(Relay.UnreachableExplanation))
        && (verdict.None? || "supply_voltage" !in verdict.value ==>
              next.voltage == Defined(sensor, "supply_voltage"))
        && (verdict.None? || "supply_current" !in verdict.value ==>
              next.current == Defined(sensor, "supply_current"))
        && (verdict.None? || "battery_current" !in verdict.value ==>
              next.power == Defined(sensor, "battery_current"))
  {
    var fields := Relay.Enrich(sensor, verdict, filler);
    var v := Relay.VerdictOrFallback(verdict);
    assert "supply_voltage" != Relay.TempKey && "supply_voltage" != Relay.VoltageKey;
    assert "supply_current" != Relay.TempKey && "supply_current" != Relay.VoltageKey;
    assert "battery_current" != Relay.TempKey && "battery_current" != Relay.VoltageKey;
    assert verdict.None? ==> "supply_voltage" !in v && "supply_current" !in v && "battery_current" !in v;
  }
}
