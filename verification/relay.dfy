/** The WebSocket relay of `server.js` as a sequential state machine.

    The relay keeps a map from device id to connection, a set of viewer
    connections, and a per-connection "is device" flag. Every inbound text
    is one `Step`, every disconnect one `Close`; each returns the next state
    and the messages the relay sends, in the order it sends them.

    JavaScript `Map` and `Set` iterate in insertion order, and `Map.set` on
    a key already present keeps the key's position, so the registries are
    ordered sequences here; `Lookup` and membership in `viewers` are their
    map and set views. */
module Relay {

  import opened Wrappers
  import opened Text
  import opened Json
  import Lists

  /** A transport handle. Two connections are the same exactly when their
      handles are equal (JavaScript object identity). */
  type Conn = nat

  const DeviceTag: string := "NODEMCU"
  const DevicePrefix: string := "NODEMCU:"
  const ViewerAnnouncement: string := "BROWSER"
  const StatusKey: string := "system_status"
  const ExplanationKey: string := "explanation"
  const UnreachableExplanation: string := "AI server could not be reached."
  const TempKey: string := "random_temp"
  const VoltageKey: string := "random_voltage"

  /** One entry of the device map: `id -> conn`. */
  datatype Entry = Entry(id: string, conn: Conn)

  /** `nodemcuClients` (in insertion order), `browserClients` (in insertion
      order) and the connections whose `isNodeMCU` flag is set. */
  datatype State = State(devices: seq<Entry>, viewers: seq<Conn>, flagged: set<Conn>)

  /** What a viewer or device receives: a verbatim text, or the enriched
      telemetry object (serialised by `JSON.stringify` before sending). */
  datatype Payload = Raw(text: string) | Enriched(fields: Object)

  /** One `send` call: destination and payload. */
  datatype Envelope = Envelope(dest: Conn, payload: Payload)

  /** The two synthetic readings attached to every telemetry message. They
      are random in the source, so here they are an input. */
  datatype Filler = Filler(temp: string, voltage: string)

  /** The next state and the messages sent, in order. */
  datatype Stepped = Stepped(next: State, outbox: seq<Envelope>)

  /** An input event on one connection. For a message, `parsed` is what
      `JSON.parse` makes of `text` and `verdict` is the reply of the
      anomaly service (`None` when the request fails); both are consulted
      only when the sender is a device. */
  datatype Event =
    | Message(conn: Conn, text: string, parsed: Option<Object>, verdict: Option<Object>, filler: Filler)
    | Closed(conn: Conn)

  const Initial: State := State([], [], {})

  // ---------------------------------------------------------------------
  // The device map

  /** `nodemcuClients.get(id)`. */
  function Lookup(devices: seq<Entry>, id: string): Option<Conn>
  {
    if |devices| == 0 then None
    else if devices[0].id == id then Some(devices[0].conn)
    else Lookup(devices[1..], id)
  }

  /** The ids of the device map, in map order. */
  function Ids(devices: seq<Entry>): seq<string> {
    Lists.Map(devices, (e: Entry) => e.id)
  }

  /** One entry per id, as a `Map` has. */
  predicate IdsUnique(devices: seq<Entry>) {
    Lists.Distinct(Ids(devices))
  }

  predicate HasId(devices: seq<Entry>, id: string) {
    exists i :: 0 <= i < |devices| && devices[i].id == id
  }

  /** `nodemcuClients.set(id, c)`: the value under `id` becomes `c`, every
      other id keeps its value; an existing id keeps its position, a new
      one is appended. */
  function SetDevice(devices: seq<Entry>, id: string, c: Conn): (r: seq<Entry>)
    ensures forall k :: Lookup(r, k) == if k == id then Some(c) else Lookup(devices, k)
    ensures IdsUnique(devices) ==> IdsUnique(r)
    ensures HasId(devices, id) ==> |r| == |devices|
    ensures !HasId(devices, id) ==> r == devices + [Entry(id, c)]
    ensures forall i :: 0 <= i < |devices| ==> r[i].id == devices[i].id
    ensures forall e :: e in r ==> e in devices || e == Entry(id, c)
  {
    if |devices| == 0 then [Entry(id, c)]
    else if devices[0].id == id then [Entry(id, c)] + devices[1..]
    else [devices[0]] + SetDevice(devices[1..], id, c)
  }

  /** The close handler's loop over `nodemcuClients.entries()`: delete
      every entry whose value is this very connection, keeping the others
      in their order. */
  function RemoveConn(devices: seq<Entry>, c: Conn): (r: seq<Entry>)
    ensures forall e :: e in r <==> e in devices && e.conn != c
    ensures Lists.IsSubsequence(r, devices)
    ensures IdsUnique(devices) ==> IdsUnique(r)
  {
    if |devices| == 0 then []
    else
      var rest := RemoveConn(devices[1..], c);
      UniqueTail(devices);
      if devices[0].conn == c then rest
      else
        UniqueCons(devices, rest);
        [devices[0]] + rest
  }

  /** Dropping the first entry keeps the ids unique. */
  lemma UniqueTail(devices: seq<Entry>)
    requires |devices| > 0
    ensures IdsUnique(devices) ==> IdsUnique(devices[1..])
  {
    if IdsUnique(devices) {
      var ids, tail := Ids(devices), Ids(devices[1..]);
      forall i, j | 0 <= i < j < |tail| ensures tail[i] != tail[j] {
        assert tail[i] == ids[i + 1] && tail[j] == ids[j + 1];
      }
    }
  }

  /** Putting the first entry back in front of unique entries drawn from
      the rest keeps the ids unique. */
  lemma UniqueCons(devices: seq<Entry>, rest: seq<Entry>)
    requires |devices| > 0
    requires forall e :: e in rest ==> e in devices[1..]
    ensures IdsUnique(devices) && IdsUnique(rest) ==> IdsUnique([devices[0]] + rest)
  {
    if IdsUnique(devices) && IdsUnique(rest) {
      var r := [devices[0]] + rest;
      var ids, rids := Ids(devices), Ids(r);
      forall i, j | 0 <= i < j < |rids| ensures rids[i] != rids[j] {
        assert r[j] == rest[j - 1];
        if i > 0 {
          assert r[i] == rest[i - 1];
          assert rids[i] == Ids(rest)[i - 1] && rids[j] == Ids(rest)[j - 1];
        } else {
          assert r[j] in devices[1..];
          var k :| 0 <= k < |devices[1..]| && devices[1..][k] == r[j];
          assert devices[k + 1] == r[j];
          assert ids[0] == rids[i] && ids[k + 1] == rids[j];
        }
      }
    }
  }

  /** After closing `c`, an id maps to what it mapped to before, unless
      that was `c`, in which case it is gone. */
  lemma {:induction false} RemoveConnLookup(devices: seq<Entry>, c: Conn, k: string)
    requires IdsUnique(devices)
    ensures Lookup(RemoveConn(devices, c), k) ==
      if Lookup(devices, k) == Some(c) then None else Lookup(devices, k)
    decreases |devices|
  {
    if |devices| > 0 {
      var rest := devices[1..];
      assert IdsUnique(rest) by {
        forall i, j | 0 <= i < j < |rest| ensures rest[i].id != rest[j].id {
          assert rest[i] == devices[i + 1] && rest[j] == devices[j + 1];
        }
      }
      RemoveConnLookup(rest, c, k);
      if devices[0].id == k {
        assert forall i :: 0 <= i < |rest| ==> rest[i].id != k by {
          forall i | 0 <= i < |rest| ensures rest[i].id != k {
            assert rest[i] == devices[i + 1];
          }
        }
        LookupAbsent(rest, k);
        var r := RemoveConn(rest, c);
        assert forall i :: 0 <= i < |r| ==> r[i].id != k by {
          forall i | 0 <= i < |r| ensures r[i].id != k {
            assert r[i] in rest;
          }
        }
        LookupAbsent(r, k);
      }
    }
  }

  /** An id that no entry carries is not found. */
  lemma {:induction false} LookupAbsent(devices: seq<Entry>, id: string)
    requires forall i :: 0 <= i < |devices| ==> devices[i].id != id
    ensures Lookup(devices, id) == None
    decreases |devices|
  {
    if |devices| > 0 {
      LookupAbsent(devices[1..], id);
    }
  }

  /** `nodemcuClients.values()`: the connections in map order, one per
      entry, so a connection registered under two ids appears twice. */
  function DeviceConns(devices: seq<Entry>): seq<Conn> {
    Lists.Map(devices, (e: Entry) => e.conn)
  }

  /** Number of ids under which `c` is registered. */
  function IdsOf(devices: seq<Entry>, c: Conn): nat
  {
    if |devices| == 0 then 0
    else (if devices[0].conn == c then 1 else 0) + IdsOf(devices[1..], c)
  }

  // ---------------------------------------------------------------------
  // The viewer set

  predicate NoDuplicates(viewers: seq<Conn>) {
    forall i, j :: 0 <= i < j < |viewers| ==> viewers[i] != viewers[j]
  }

  /** `browserClients.add(c)`: appended when absent, no effect otherwise. */
  function AddViewer(viewers: seq<Conn>, c: Conn): (r: seq<Conn>)
    ensures forall x :: x in r <==> x in viewers || x == c
    ensures c in viewers ==> r == viewers
    ensures c !in viewers ==> r == viewers + [c]
    ensures NoDuplicates(viewers) ==> NoDuplicates(r)
  {
    if c in viewers then viewers else viewers + [c]
  }

  /** `browserClients.delete(c)`. */
  function RemoveViewer(viewers: seq<Conn>, c: Conn): (r: seq<Conn>)
    ensures forall x :: x in r <==> x in viewers && x != c
    ensures NoDuplicates(viewers) ==> NoDuplicates(r)
    ensures Lists.IsSubsequence(r, viewers)
  {
    var r := Lists.Filter(viewers, (x: Conn) => x != c);
    assert NoDuplicates(viewers) ==> NoDuplicates(r) by {
      if NoDuplicates(viewers) && !NoDuplicates(r) {
        var i, j :| 0 <= i < j < |r| && r[i] == r[j];
        OccurrencesAtLeastTwo(r, i, j);
        NoDuplicatesOccurrences(viewers, r[i]);
        assert false;
      }
    }
    r
  }

  lemma {:induction false} OccurrencesAtLeastTwo(s: seq<Conn>, i: nat, j: nat)
    requires i < j < |s| && s[i] == s[j]
    ensures Lists.Occurrences(s, s[i]) >= 2
  {
    if i == 0 {
      assert s[j] in s[1..] by { assert s[1..][j - 1] == s[j]; }
    } else {
      OccurrencesAtLeastTwo(s[1..], i - 1, j - 1);
    }
  }

  lemma {:induction false} NoDuplicatesOccurrences(s: seq<Conn>, x: Conn)
    requires NoDuplicates(s)
    ensures Lists.Occurrences(s, x) <= 1
  {
    if |s| > 0 {
      assert NoDuplicates(s[1..]) by {
        forall i, j | 0 <= i < j < |s[1..]|
          ensures s[1..][i] != s[1..][j]
        {
          assert s[1..][i] == s[i + 1] && s[1..][j] == s[j + 1];
        }
      }
      NoDuplicatesOccurrences(s[1..], x);
      if s[0] == x {
        assert x !in s[1..] by {
          forall k | 0 <= k < |s[1..]| ensures s[1..][k] != x {
            assert s[1..][k] == s[k + 1];
          }
        }
      }
    }
  }

  // ---------------------------------------------------------------------
  // Classification and enrichment

  /** `message.split(':')[1]` for a device announcement: the text between
      the first and the second colon, or to the end if there is no second
      colon. `"NODEMCU:"` announces the empty id. */
  function AnnouncedId(text: string): (id: string)
    requires StartsWith(text, DevicePrefix)
    ensures var rest := text[|DevicePrefix|..]; id == rest[..IndexOf(rest, ':')]
    ensures ':' !in id
  {
    var rest := text[|DevicePrefix|..];
    assert text == DeviceTag + [':'] + rest;
    SplitAfterTag(DeviceTag, rest, ':');
    Split(text, ':')[1]
  }

  /** `aiResponse` after the request: the service's reply, or the fixed
      fallback verdict when the request failed. */
  function VerdictOrFallback(verdict: Option<Object>): (v: Object)
    ensures verdict.Some? ==> v == verdict.value
    ensures verdict.None? ==> v.Keys == {StatusKey, ExplanationKey}
    ensures verdict.None? ==> v[StatusKey] == Str("unknown")
    ensures verdict.None? ==> v[ExplanationKey] == Str(UnreachableExplanation)
  {
    verdict.GetOr(map[StatusKey := Str("unknown"), ExplanationKey := Str(UnreachableExplanation)])
  }

  function FillerFields(filler: Filler): Object {
    map[TempKey := Str(filler.temp), VoltageKey := Str(filler.voltage)]
  }

  /** `{ ...sensorData, ...aiResponse, ...randomCards }`: every sensor
      field, overridden by the verdict's fields, overridden in turn by the
      two synthetic readings. */
  function Enrich(sensor: Object, verdict: Option<Object>, filler: Filler): (out: Object)
    ensures out.Keys == sensor.Keys + VerdictOrFallback(verdict).Keys + {TempKey, VoltageKey}
    ensures out[TempKey] == Str(filler.temp) && out[VoltageKey] == Str(filler.voltage)
    ensures forall k :: k in VerdictOrFallback(verdict) && k != TempKey && k != VoltageKey ==>
      out[k] == VerdictOrFallback(verdict)[k]
    ensures forall k :: k in sensor && k !in VerdictOrFallback(verdict) && k != TempKey && k != VoltageKey ==>
      out[k] == sensor[k]
  {
    Spread(Spread(sensor, VerdictOrFallback(verdict)), FillerFields(filler))
  }

  /** One `send` of `p` to each destination, in order. */
  function FanOut(dests: seq<Conn>, p: Payload): (out: seq<Envelope>)
    ensures |out| == |dests|
    ensures forall i :: 0 <= i < |dests| ==> out[i] == Envelope(dests[i], p)
  {
    seq(|dests|, i requires 0 <= i < |dests| => Envelope(dests[i], p))
  }

  /** Number of messages addressed to `c`. */
  function DeliveredTo(outbox: seq<Envelope>, c: Conn): nat
  {
    if |outbox| == 0 then 0
    else (if outbox[0].dest == c then 1 else 0) + DeliveredTo(outbox[1..], c)
  }

  // ---------------------------------------------------------------------
  // The two handlers

  /** The `message` handler. The announcement tests come first and run on
      every message, whoever sends it: a `NODEMCU:` prefix sets the device
      flag and registers the id, the exact text `BROWSER` adds a viewer.
      Otherwise a flagged connection's text is telemetry (dropped when it
      is not JSON, else enriched and sent to every viewer) and any other
      connection's text is a command sent verbatim to every device map
      entry. */
  function Step(st: State, c: Conn, text: string, parsed: Option<Object>,
                verdict: Option<Object>, filler: Filler): Stepped
  {
    if StartsWith(text, DevicePrefix) then
      Stepped(st.(devices := SetDevice(st.devices, AnnouncedId(text), c),
                  flagged := st.flagged + {c}), [])
    else if text == ViewerAnnouncement then
      Stepped(st.(viewers := AddViewer(st.viewers, c)), [])
    else if c in st.flagged then
      match parsed
      case None => Stepped(st, [])
      case Some(sensor) => Stepped(st, FanOut(st.viewers, Enriched(Enrich(sensor, verdict, filler))))
    else
      Stepped(st, FanOut(DeviceConns(st.devices), Raw(text)))
  }

  /** The `close` handler: remove every device entry holding this exact
      connection and remove it from the viewers. The flag stays. */
  function Close(st: State, c: Conn): State
  {
    st.(devices := RemoveConn(st.devices, c), viewers := RemoveViewer(st.viewers, c))
  }

  function Apply(st: State, e: Event): Stepped
  {
    match e
    case Message(c, text, parsed, verdict, filler) => Step(st, c, text, parsed, verdict, filler)
    case Closed(c) => Stepped(Close(st, c), [])
  }

  /** The events one after another, from `st`; the outboxes concatenated. */
  function Run(st: State, events: seq<Event>): Stepped
    decreases |events|
  {
    if |events| == 0 then Stepped(st, [])
    else
      var first := Apply(st, events[0]);
      var rest := Run(first.next, events[1..]);
      Stepped(rest.next, first.outbox + rest.outbox)
  }

  // ---------------------------------------------------------------------
  // Invariant

  /** What every reachable state satisfies: one entry per id, each viewer
      once, and every registered connection carries the device flag. */
  predicate Valid(st: State) {
    && IdsUnique(st.devices)
    && NoDuplicates(st.viewers)
    && forall e :: e in st.devices ==> e.conn in st.flagged
  }

  lemma InitialValid()
    ensures Valid(Initial)
  {
  }

  lemma StepPreservesValid(st: State, c: Conn, text: string, parsed: Option<Object>,
                           verdict: Option<Object>, filler: Filler)
    requires Valid(st)
    ensures Valid(Step(st, c, text, parsed, verdict, filler).next)
  {
  }

  lemma ClosePreservesValid(st: State, c: Conn)
    requires Valid(st)
    ensures Valid(Close(st, c))
  {
  }

  /** Every state reachable from a valid one is valid, and the set of
      flagged connections only grows. */
  lemma {:induction false} RunPreservesValid(st: State, events: seq<Event>)
    requires Valid(st)
    ensures Valid(Run(st, events).next)
    ensures st.flagged <= Run(st, events).next.flagged
    decreases |events|
  {
    if |events| > 0 {
      var first := Apply(st, events[0]);
      match events[0] {
        case Message(c, text, parsed, verdict, filler) =>
          StepPreservesValid(st, c, text, parsed, verdict, filler);
        case Closed(c) =>
          ClosePreservesValid(st, c);
      }
      RunPreservesValid(first.next, events[1..]);
    }
  }

  // ---------------------------------------------------------------------
  // Properties of one step

  /** A `NODEMCU:` message flags its sender and maps the announced id to
      it, replacing any earlier connection under that id; other ids and
      the viewers are untouched and nothing is sent. */
  lemma DeviceRegistration(st: State, c: Conn, text: string, parsed: Option<Object>,
                           verdict: Option<Object>, filler: Filler)
    requires StartsWith(text, DevicePrefix)
    ensures var out := Step(st, c, text, parsed, verdict, filler);
      && out.outbox == []
      && out.next.flagged == st.flagged + {c}
      && out.next.viewers == st.viewers
      && Lookup(out.next.devices, AnnouncedId(text)) == Some(c)
      && forall k :: k != AnnouncedId(text) ==> Lookup(out.next.devices, k) == Lookup(st.devices, k)
  {
  }

  /** The exact text `BROWSER` makes its sender a viewer (a second time
      changes nothing) and sends nothing. It is checked before the device
      flag, so a device that sends it becomes a viewer too. */
  lemma ViewerRegistration(st: State, c: Conn, parsed: Option<Object>,
                            verdict: Option<Object>, filler: Filler)
    ensures var out := Step(st, c, ViewerAnnouncement, parsed, verdict, filler);
      && out.outbox == []
      && out.next.devices == st.devices
      && out.next.flagged == st.flagged
      && (forall x :: x in out.next.viewers <==> x in st.viewers || x == c)
      && Step(out.next, c, ViewerAnnouncement, parsed, verdict, filler).next == out.next
  {
    assert !StartsWith(ViewerAnnouncement, DevicePrefix);
  }

  /** No message and no close ever clears a device flag. */
  lemma FlagNeverCleared(st: State, e: Event)
    ensures st.flagged <= Apply(st, e).next.flagged
  {
  }

  /** Parseable telemetry from a device is sent, enriched, once to each
      viewer in viewer order and to no other connection; the registries do
      not change. */
  lemma TelemetryFanOut(st: State, c: Conn, text: string, sensor: Object,
                        verdict: Option<Object>, filler: Filler)
    requires Valid(st)
    requires !StartsWith(text, DevicePrefix) && text != ViewerAnnouncement
    requires c in st.flagged
    ensures var out := Step(st, c, text, Some(sensor), verdict, filler);
      && out.next == st
      && |out.outbox| == |st.viewers|
      && (forall i :: 0 <= i < |st.viewers| ==>
            out.outbox[i] == Envelope(st.viewers[i], Enriched(Enrich(sensor, verdict, filler))))
      && (forall v :: DeliveredTo(out.outbox, v) == if v in st.viewers then 1 else 0)
  {
    var p := Enriched(Enrich(sensor, verdict, filler));
    forall v ensures DeliveredTo(FanOut(st.viewers, p), v) == if v in st.viewers then 1 else 0 {
      DeliveredIsOccurrences(st.viewers, p, v);
      NoDuplicatesOccurrences(st.viewers, v);
    }
  }

  /** Delivering one payload to a list of destinations reaches each
      connection as often as it occurs in the list. */
  lemma {:induction false} DeliveredIsOccurrences(dests: seq<Conn>, p: Payload, c: Conn)
    ensures DeliveredTo(FanOut(dests, p), c) == Lists.Occurrences(dests, c)
    decreases |dests|
  {
    if |dests| > 0 {
      assert FanOut(dests, p)[1..] == FanOut(dests[1..], p);
      DeliveredIsOccurrences(dests[1..], p, c);
    }
  }

  /** When the anomaly service cannot be reached the telemetry still goes
      to every viewer, carrying status `unknown` and the fixed explanation
      (unless the device itself sent the two synthetic keys, nothing hides
      the sensor fields). */
  lemma UnreachableVerdict(st: State, c: Conn, text: string, sensor: Object, filler: Filler)
    requires !StartsWith(text, DevicePrefix) && text != ViewerAnnouncement
    requires c in st.flagged
    ensures var out := Step(st, c, text, Some(sensor), None, filler);
      && |out.outbox| == |st.viewers|
      && forall i :: 0 <= i < |out.outbox| ==>
           && out.outbox[i].dest == st.viewers[i]
           && out.outbox[i].payload.Enriched?
           && out.outbox[i].payload.fields[StatusKey] == Str("unknown")
           && out.outbox[i].payload.fields[ExplanationKey] == Str(UnreachableExplanation)
           && forall k :: k in sensor && k !in {StatusKey, ExplanationKey, TempKey, VoltageKey} ==>
                k in out.outbox[i].payload.fields && out.outbox[i].payload.fields[k] == sensor[k]
  {
  }

  /** A device text that is not JSON is dropped: no message, no change. */
  lemma NonJsonDropped(st: State, c: Conn, text: string, verdict: Option<Object>, filler: Filler)
    requires !StartsWith(text, DevicePrefix) && text != ViewerAnnouncement
    requires c in st.flagged
    ensures Step(st, c, text, None, verdict, filler) == Stepped(st, [])
  {
  }

  /** A text from a connection without the device flag (a viewer or one
      that never announced itself) goes verbatim to every device map entry,
      in map order: a connection registered under several ids gets it once
      per id, and with no devices nothing is sent. */
  lemma CommandForwarded(st: State, c: Conn, text: string, parsed: Option<Object>,
                         verdict: Option<Object>, filler: Filler)
    requires !StartsWith(text, DevicePrefix) && text != ViewerAnnouncement
    requires c !in st.flagged
    ensures var out := Step(st, c, text, parsed, verdict, filler);
      && out.next == st
      && |out.outbox| == |st.devices|
      && (forall i :: 0 <= i < |st.devices| ==> out.outbox[i] == Envelope(st.devices[i].conn, Raw(text)))
      && (forall d :: DeliveredTo(out.outbox, d) == IdsOf(st.devices, d))
      && (st.devices == [] ==> out.outbox == [])
  {
    forall d ensures DeliveredTo(FanOut(DeviceConns(st.devices), Raw(text)), d) == IdsOf(st.devices, d) {
      DeliveredIsOccurrences(DeviceConns(st.devices), Raw(text), d);
      IdsOfIsOccurrences(st.devices, d);
    }
  }

  lemma {:induction false} IdsOfIsOccurrences(devices: seq<Entry>, c: Conn)
    ensures IdsOf(devices, c) == Lists.Occurrences(DeviceConns(devices), c)
    decreases |devices|
  {
    if |devices| > 0 {
      assert DeviceConns(devices)[1..] == DeviceConns(devices[1..]);
      IdsOfIsOccurrences(devices[1..], c);
    }
  }

  /** Closing removes exactly the entries whose connection is this one and
      the viewer itself; an id re-registered by another connection keeps
      pointing at it. */
  lemma CloseIsIdentityChecked(st: State, c: Conn)
    requires Valid(st)
    ensures var after := Close(st, c);
      && (forall k :: Lookup(after.devices, k) ==
            if Lookup(st.devices, k) == Some(c) then None else Lookup(st.devices, k))
      && (forall x :: x in after.viewers <==> x in st.viewers && x != c)
      && after.flagged == st.flagged
      && IdsOf(after.devices, c) == 0
  {
    forall k ensures Lookup(RemoveConn(st.devices, c), k) ==
        if Lookup(st.devices, k) == Some(c) then None else Lookup(st.devices, k) {
      RemoveConnLookup(st.devices, c, k);
    }
    IdsOfIsOccurrences(Close(st, c).devices, c);
  }

  // ---------------------------------------------------------------------
  // Scenarios

  /** A device that reconnects under the same id on a new connection takes
      over the id, and the late close of the old connection does not evict
      it: a viewer's next command reaches the new connection only. */
  lemma ReconnectSurvivesStaleClose(st: State, stale: Conn, current: Conn, id: string,
                                    viewer: Conn, command: string,
                                    parsed: Option<Object>, verdict: Option<Object>, filler: Filler)
    requires Valid(st)
    requires stale != current && viewer != stale && viewer != current
    requires Lookup(st.devices, id) == Some(stale)
    requires ':' !in id
    requires viewer !in st.flagged
    requires !StartsWith(command, DevicePrefix) && command != ViewerAnnouncement
    ensures var s1 := Step(st, current, DevicePrefix + id, parsed, verdict, filler).next;
      var s2 := Close(s1, stale);
      var out := Step(s2, viewer, command, parsed, verdict, filler);
      && Lookup(s2.devices, id) == Some(current)
      && DeliveredTo(out.outbox, current) >= 1
      && DeliveredTo(out.outbox, stale) == 0
  {
    var text := DevicePrefix + id;
    assert StartsWith(text, DevicePrefix) by { assert text[..|DevicePrefix|] == DevicePrefix; }
    assert text[|DevicePrefix|..] == id;
    assert AnnouncedId(text) == id;
    var s1 := Step(st, current, text, parsed, verdict, filler).next;
    StepPreservesValid(st, current, text, parsed, verdict, filler);
    var s2 := Close(s1, stale);
    CloseIsIdentityChecked(s1, stale);
    ClosePreservesValid(s1, stale);
    assert viewer !in s2.flagged;
    CommandForwarded(s2, viewer, command, parsed, verdict, filler);
    LookupCountsId(s2.devices, id, current);
  }

  lemma {:induction false} LookupCountsId(devices: seq<Entry>, id: string, c: Conn)
    requires Lookup(devices, id) == Some(c)
    ensures IdsOf(devices, c) >= 1
    decreases |devices|
  {
    if devices[0].id != id {
      LookupCountsId(devices[1..], id, c);
    }
  }

  /** A viewer that disconnects receives no later telemetry, and the other
      viewers still receive it. */
  lemma ClosedViewerMissesTelemetry(st: State, gone: Conn, c: Conn, text: string, sensor: Object,
                                    verdict: Option<Object>, filler: Filler)
    requires Valid(st)
    requires !StartsWith(text, DevicePrefix) && text != ViewerAnnouncement
    requires c in st.flagged
    ensures var out := Step(Close(st, gone), c, text, Some(sensor), verdict, filler);
      && DeliveredTo(out.outbox, gone) == 0
      && forall v :: v in st.viewers && v != gone ==> DeliveredTo(out.outbox, v) == 1
  {
    ClosePreservesValid(st, gone);
    TelemetryFanOut(Close(st, gone), c, text, sensor, verdict, filler);
  }
}
