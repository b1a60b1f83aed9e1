/** The bridge's side of the relay socket, `internal/bridge/relay_client.go`:
    the live channels, each an incarnation named by the token it was opened
    with. */
module RelayMux {
  import opened Options
  import opened RelayPhones

  /** A message on the control channel. */
  datatype Control =
    | Open(ch: Channel, token: string)
    | Close(ch: Channel, token: string)
    | VouchControl(ch: Channel, token: string)

  /** What a channel object is created with. */
  datatype Incarnation = Incarnation(ch: Channel, token: string)

  /** `created` holds every channel object by number of creation, `channels` the
      ones the socket still routes to, `done` those whose `once` has run. */
  datatype MuxState = MuxState(created: seq<Incarnation>, channels: map<Channel, nat>, done: set<nat>)

  const EmptyMux := MuxState([], map[], {})

  ghost predicate MuxValid(m: MuxState) {
    && (forall ch :: ch in m.channels ==>
          m.channels[ch] < |m.created| && m.created[m.channels[ch]].ch == ch && m.channels[ch] !in m.done)
    && (forall id :: id in m.done ==> id < |m.created|)
  }

  /** A new channel; one that held the number is finished. */
  function Opened(m: MuxState, ch: Channel, token: string): (r: MuxState)
    requires MuxValid(m)
    ensures MuxValid(r) && m.done <= r.done
  {
    MuxState(
      m.created + [Incarnation(ch, token)],
      m.channels[ch := |m.created|],
      if ch in m.channels then m.done + {m.channels[ch]} else m.done)
  }

  /** A close from the relay finishes the channel it names, and no other. */
  function RemotelyClosed(m: MuxState, ch: Channel, token: string): (r: MuxState)
    requires MuxValid(m)
    ensures MuxValid(r) && m.done <= r.done
  {
    if ch !in m.channels || (token != "" && m.created[m.channels[ch]].token != token) then m
    else m.(channels := m.channels - {ch}, done := m.done + {m.channels[ch]})
  }

  /** The channel object closes itself, once; the relay is told if the channel
      was still routed. */
  function Closed(m: MuxState, id: nat): (r: (MuxState, Option<Control>))
    requires MuxValid(m) && id < |m.created|
    ensures MuxValid(r.0) && r.0.done == m.done + {id}
  {
    if id in m.done then (m, None)
    else
      var rc := m.created[id];
      if rc.ch in m.channels && m.channels[rc.ch] == id then
        (m.(channels := m.channels - {rc.ch}, done := m.done + {id}), Some(Close(rc.ch, rc.token)))
      else (m.(done := m.done + {id}), None)
  }

  /** The relay socket is gone: every routed channel is finished. */
  function AllClosed(m: MuxState): (r: MuxState)
    requires MuxValid(m)
    ensures MuxValid(r) && m.done <= r.done
  {
    m.(channels := map[], done := m.done + m.channels.Values)
  }

  class Mux {
    var created: seq<Incarnation>
    var channels: map<Channel, nat>
    var done: set<nat>

    constructor ()
      ensures State() == EmptyMux && MuxValid(State())
    {
      created, channels, done := [], map[], {};
    }

    function State(): MuxState
      reads this
    {
      MuxState(created, channels, done)
    }

    /** `finish` of a channel object. */
    method Finish(id: nat)
      modifies this`done
      ensures done == old(done) + {id}
    {
      done := done + {id};
    }

    method OpenChannel(ch: Channel, token: string) returns (id: nat)
      requires MuxValid(State())
      modifies this
      ensures MuxValid(State()) && State() == Opened(old(State()), ch, token)
      ensures id == |old(created)| && created == old(created) + [Incarnation(ch, token)]
      ensures channels == old(channels)[ch := id]
      ensures forall k :: k in done <==> k in old(done) || (ch in old(channels) && old(channels)[ch] == k)
    {
      var older := if ch in channels then Some(channels[ch]) else None;
      id := |created|;
      created := created + [Incarnation(ch, token)];
      channels := channels[ch := id];
      if older.Some? {
        Finish(older.value);
      }
    }

    method RemoteClosed(ch: Channel, token: string)
      requires MuxValid(State())
      modifies this
      ensures MuxValid(State()) && State() == RemotelyClosed(old(State()), ch, token)
      ensures ch in channels <==>
        ch in old(channels) && token != "" && old(created)[old(channels)[ch]].token != token
      ensures forall c :: c != ch ==> (c in channels <==> c in old(channels))
      ensures forall c :: c in channels ==> channels[c] == old(channels)[c]
      ensures forall k :: k in done <==>
        k in old(done) || (ch in old(channels) && ch !in channels && old(channels)[ch] == k)
    {
      if ch !in channels || (token != "" && created[channels[ch]].token != token) {
        return;
      }
      var id := channels[ch];
      channels := channels - {ch};
      Finish(id);
    }

    method CloseChannel(id: nat) returns (sent: Option<Control>)
      requires MuxValid(State()) && id < |created|
      modifies this
      ensures MuxValid(State()) && (State(), sent) == Closed(old(State()), id)
      ensures done == old(done) + {id} && created == old(created)
      ensures var rc := created[id];
        var routed := id !in old(done) && rc.ch in old(channels) && old(channels)[rc.ch] == id;
        && sent == (if routed then Some(Close(rc.ch, rc.token)) else None)
        && channels == (if routed then old(channels) - {rc.ch} else old(channels))
    {
      if id in done {
        return None;
      }
      Finish(id);
      var rc := created[id];
      var owned := rc.ch in channels && channels[rc.ch] == id;
      if owned {
        channels := channels - {rc.ch};
        return Some(Close(rc.ch, rc.token));
      }
      return None;
    }

    method CloseAll()
      requires MuxValid(State())
      modifies this
      ensures MuxValid(State()) && State() == AllClosed(old(State()))
      ensures channels == map[] && created == old(created)
      ensures forall k :: k in done <==> k in old(done) || exists ch :: ch in old(channels) && old(channels)[ch] == k
    {
      var chans := channels;
      channels := map[];
      var keys := chans.Keys;
      while keys != {}
        invariant keys <= chans.Keys && channels == map[] && created == old(created)
        invariant done == old(done) + set ch | ch in chans && ch !in keys :: chans[ch]
        decreases keys
      {
        var ch :| ch in keys;
        keys := keys - {ch};
        Finish(chans[ch]);
      }
    }
  }
}
