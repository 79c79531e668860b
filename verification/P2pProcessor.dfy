/** The session of a player with the peer-to-peer client: which requests wait, which are being
    served, and what each connection is sent. */
module P2pProcessor {
  import opened Options
  import opened KeyedList

  type Conn = nat
  type Packet = string
  type Time = int

  const HTTP_OK := 200
  const HTTP_BAD_REQUEST := 400
  const HTTP_UNAUTHORIZED := 401
  const HTTP_NOT_FOUND := 404
  const HTTP_REQUEST_TIMEOUT := 408
  const HTTP_SERVICE_UNAVAILABLE := 503

  /** Six seconds, the length of the replay window and of the idle time, in microseconds. */
  const SIX_SECONDS := 6_000_000

  datatype State = Disconnected | Connecting | Connected

  /** What a connection is sent: the header of a stream, the header alone, a packet, or a reply. */
  datatype Item = StreamHead(partial: bool) | HeadOnly | Media(packet: Packet) | Reply(status: int)

  /** A session.  `open` are the connections that are open, `out` is what each was sent, `received`
      are all packets accepted since the beginning with their `times`, and `since` is how many of
      them were accepted before the session was last connected. */
  datatype Session = Session(
    state: State, link: string, vod: bool, offset: int,
    head: set<Conn>, switching: set<Conn>, stream: set<Conn>, waiting: map<Conn, bool>,
    idle: Option<Time>, packets: seq<(Packet, Time)>,
    open: set<Conn>, out: map<Conn, seq<Item>>, received: seq<Packet>, times: seq<Time>, since: nat)

  // -------------------------------------------------------------------------------- sending

  function Log(out: map<Conn, seq<Item>>, c: Conn): seq<Item> {
    if c in out then out[c] else []
  }

  /** The logs after each connection was sent what is listed for it. */
  function Sent(out: map<Conn, seq<Item>>, what: map<Conn, seq<Item>>): map<Conn, seq<Item>> {
    map c | c in out.Keys + what.Keys :: Log(out, c) + Log(what, c)
  }

  function SentTo(out: map<Conn, seq<Item>>, c: Conn, items: seq<Item>): map<Conn, seq<Item>> {
    Sent(out, map[c := items])
  }

  function ToAll(conns: set<Conn>, items: seq<Item>): map<Conn, seq<Item>> {
    map c | c in conns :: items
  }

  /** The packets of the window, as they are replayed. */
  function Replay(packets: seq<(Packet, Time)>): (r: seq<Item>)
    ensures |r| == |packets| && forall i :: 0 <= i < |r| ==> r[i] == Media(packets[i].0)
  {
    seq(|packets|, i requires 0 <= i < |packets| => Media(packets[i].0))
  }

  // ----------------------------------------------------------------------------- the events

  /** All connections closed and forgotten. */
  function Closed(s: Session): Session {
    s.(head := {}, switching := {}, stream := {}, waiting := map[],
       open := s.open - s.head - s.switching - s.stream - s.waiting.Keys)
  }

  /** `stop_channel`. */
  function Stopped(s: Session): Session {
    if s.state == Disconnected then s else Closed(s).(state := Disconnected, link := "", idle := None, packets := [])
  }

  /** `start_channel`, for a tracker that is not a multicast address. */
  function Started(s: Session, link: string, vod: bool, offset: int): Session {
    s.(state := Connecting, link := link, vod := vod, offset := offset)
  }

  /** What the answer to a stream request begins with. */
  function Opening(s: Session, range: bool): seq<Item> {
    [StreamHead(s.vod && (range || s.offset > 0))] + Replay(s.packets)
  }

  /** What several stream requests are answered with; each is a range request or not. */
  function Openings(s: Session, conns: map<Conn, bool>): map<Conn, seq<Item>> {
    map c | c in conns :: Opening(s, conns[c])
  }

  /** `register_stream_cmd_socket`. */
  function Registered(s: Session, sock: Option<Conn>, range: bool, headOnly: bool): Session {
    if sock.None? then s
    else
      var c := sock.value;
      match s.state
      case Disconnected => s.(out := Sent(s.out, ToAll({c}, [Reply(HTTP_BAD_REQUEST)])))
      case Connecting =>
        if headOnly then s.(head := s.head + {c})
        else if c in s.waiting then s
        else s.(waiting := s.waiting[c := range])
      case Connected =>
        if c !in s.open then s
        else if headOnly then s.(out := Sent(s.out, ToAll({c}, [HeadOnly])))
        else s.(out := Sent(s.out, Openings(s, map[c := range])), stream := s.stream + map[c := range].Keys)
  }

  /** The waiting connections that are still open. */
  function Ready(s: Session): map<Conn, bool> {
    map c | c in s.waiting && c in s.open :: s.waiting[c]
  }

  /** The logs once the requests that wait are answered. */
  function Responses(s: Session): map<Conn, seq<Item>> {
    Sent(Sent(s.out, Openings(s, Ready(s))), ToAll(s.head * s.open, [HeadOnly]))
  }

  /** `on_login_success`. */
  function LoggedIn(s: Session): Session {
    if s.state == Connected then s
    else
      s.(state := Connected, stream := s.stream + s.waiting.Keys * s.open, waiting := map[], head := {},
         since := |s.received|, out := Responses(s))
  }

  /** `on_login_failed`. */
  function LoginFailed(s: Session, unauthorized: bool): Session {
    var reply := [Reply(if unauthorized then HTTP_UNAUTHORIZED else HTTP_SERVICE_UNAVAILABLE)];
    Stopped(s.(out := Sent(Sent(s.out, ToAll(s.waiting.Keys, reply)), ToAll(s.stream, reply)),
               waiting := map[], stream := {}, idle := None))
  }

  /** `on_disconnected`. */
  function Forgotten(s: Session, c: Conn): Session {
    s.(waiting := s.waiting - {c}, stream := s.stream - {c}, head := s.head - {c})
  }

  predicate Passed(since: Time, now: Time) {
    since + SIX_SECONDS <= now
  }

  /** The first packet from number `k` on that is not too old. */
  function Recent(packets: seq<(Packet, Time)>, now: Time, k: nat): (r: nat)
    requires k <= |packets|
    ensures k <= r <= |packets|
    decreases |packets| - k
  {
    if k < |packets| && Passed(packets[k].1, now) then Recent(packets, now, k + 1) else k
  }

  /** The window without the packets at its front that are too old. */
  function Trimmed(packets: seq<(Packet, Time)>, now: Time): seq<(Packet, Time)> {
    packets[Recent(packets, now, 0)..]
  }

  /** The window and the replies to switch requests, which every packet brings up to date. */
  function Accepted(s: Session, p: Packet, now: Time): Session {
    s.(packets := if s.vod then s.packets else Trimmed(s.packets + [(p, now)], now),
       out := Sent(s.out, ToAll(s.switching, [Reply(HTTP_OK)])), switching := {}, received := s.received + [p],
       times := s.times + [now])
  }

  /** A packet is sent to those who are served; after six seconds of packets for nobody the channel
      stops. */
  function Delivered(s: Session, p: Packet, now: Time): Session {
    if s.stream != {} then
      s.(idle := None, out := Sent(s.out, ToAll(s.stream * s.open, [Media(p)])), stream := s.stream * s.open)
    else if s.idle.None? then s.(idle := Some(now))
    else if Passed(s.idle.value, now) then Stopped(s)
    else s
  }

  /** `on_recvd_media`. */
  function Received(s: Session, p: Packet, now: Time): Session {
    match s.state
    case Disconnected => s
    case Connecting => Stopped(s)
    case Connected => Delivered(Accepted(s, p, now), p, now)
  }

  /** `on_media_end`. */
  function Ended(s: Session): Session {
    s.(open := s.open - s.stream, stream := {})
  }

  /** The session as one of a channel, which is started unless it runs. */
  function Channel(s: Session, link: string, vod: bool, offset: int): Session {
    var t := if s.link != link then Stopped(s) else s;
    if t.state == Disconnected then Started(t, link, vod, offset)
    else if vod then t.(offset := offset) else t
  }

  /** A request to play a channel, with or without a connection to serve. */
  function Played(s: Session, link: string, vod: bool, offset: int, sock: Option<Conn>, range: bool, headOnly: bool): Session {
    Registered(Channel(s, link, vod, offset), sock, range, headOnly)
  }

  /** The command `stop_chan`. */
  function StopAsked(s: Session, link: string, c: Conn): Session {
    if link != s.link then s
    else var t := Stopped(s); t.(out := Sent(t.out, ToAll({c}, [Reply(HTTP_OK)])))
  }

  /** The command `switch_chan`. */
  function SwitchAsked(s: Session, c: Conn, link: string, vod: bool, offset: int): Session {
    var t := s.(out := Sent(s.out, ToAll(s.switching, [Reply(HTTP_REQUEST_TIMEOUT)])), switching := {c});
    Played(t, link, vod, offset, None, false, false)
  }

  /** The command `range`. */
  function RangeAsked(s: Session, link: string, c: Conn): Session {
    if link == s.link then Registered(s, Some(c), false, true)
    else s.(out := Sent(s.out, ToAll({c}, [Reply(HTTP_NOT_FOUND)])))
  }

  // ----------------------------------------------------------------------- the invariant

  /** The packets of the first `n` items of a log, one list before the first header of a stream and
      one after each. */
  ghost function StreamsTo(log: seq<Item>, n: nat): (r: seq<seq<Packet>>)
    requires n <= |log|
    ensures |r| > 0
  {
    if n == 0 then [[]]
    else
      var before := StreamsTo(log, n - 1);
      match log[n - 1]
      case StreamHead(_) => before + [[]]
      case Media(p) => before[|before| - 1 := before[|before| - 1] + [p]]
      case _ => before
  }

  ghost function Streams(log: seq<Item>): (r: seq<seq<Packet>>)
    ensures |r| > 0
  {
    StreamsTo(log, |log|)
  }

  /** The packets since the last header of a stream. */
  ghost function Current(log: seq<Item>): seq<Packet> {
    Streams(log)[|Streams(log)| - 1]
  }

  /** A run of packets without gap or repetition, up to the latest. */
  ghost predicate UpToDate(run: seq<Packet>, received: seq<Packet>) {
    |run| <= |received| && run == received[|received| - |run|..]
  }

  /** A connection that is being served: since the last header of a stream it was sent a run of the
      received packets up to the latest. */
  ghost predicate Playing(log: seq<Item>, received: seq<Packet>) {
    |Streams(log)| > 1 && UpToDate(Current(log), received)
  }

  ghost predicate SegmentAt(run: seq<Packet>, received: seq<Packet>, a: nat) {
    a + |run| <= |received| && run == received[a..a + |run|]
  }

  ghost predicate Segment(run: seq<Packet>, received: seq<Packet>) {
    exists a :: SegmentAt(run, received, a)
  }

  /** No packet comes before a header, and after each header comes a run of the received packets
      without gap or repetition. */
  ghost predicate LogOk(log: seq<Item>, received: seq<Packet>) {
    && Streams(log)[0] == []
    && forall i {:trigger Segment(Streams(log)[i], received)} :: 0 <= i < |Streams(log)| ==>
         Segment(Streams(log)[i], received)
  }

  /** Connections wait only while the login is under way and are served only while connected. */
  ghost predicate Places(s: Session) {
    (s.waiting != map[] || s.head != {} ==> s.state == Connecting) && (s.stream != {} ==> s.state == Connected)
  }

  ghost predicate Inv(s: Session) {
    && Places(s)
    && (s.packets != [] ==> s.state == Connected)
    && (s.vod ==> s.packets == [])
    && UpToDate(Payloads(s.packets), s.received)
    && (forall c {:trigger Playing(Log(s.out, c), s.received)} :: c in s.stream ==> Playing(Log(s.out, c), s.received))
    && (forall c {:trigger LogOk(Log(s.out, c), s.received)} :: LogOk(Log(s.out, c), s.received))
  }

  ghost function Payloads(packets: seq<(Packet, Time)>): (r: seq<Packet>)
    ensures |r| == |packets| && forall i :: 0 <= i < |r| ==> r[i] == packets[i].0
  {
    seq(|packets|, i requires 0 <= i < |packets| => packets[i].0)
  }

  // ------------------------------------------------------------------------ logs that grow

  lemma {:induction false} StreamsPrefix(log: seq<Item>, x: Item, n: nat)
    requires n <= |log|
    ensures StreamsTo(log + [x], n) == StreamsTo(log, n)
  {
    if n > 0 {
      StreamsPrefix(log, x, n - 1);
    }
  }

  lemma StreamsStep(log: seq<Item>, x: Item)
    ensures Streams(log + [x]) ==
      match x
      case StreamHead(_) => Streams(log) + [[]]
      case Media(p) => Streams(log)[|Streams(log)| - 1 := Current(log) + [p]]
      case _ => Streams(log)
  {
    StreamsPrefix(log, x, |log|);
  }

  /** After the opening of a stream the new list of packets is the window. */
  lemma {:induction false} StreamsReplay(log: seq<Item>, partial: bool, packets: seq<(Packet, Time)>)
    ensures Streams(log + [StreamHead(partial)] + Replay(packets)) == Streams(log) + [Payloads(packets)]
    decreases |packets|
  {
    var l := log + [StreamHead(partial)];
    if packets == [] {
      assert l + Replay(packets) == l;
      StreamsStep(log, StreamHead(partial));
    } else {
      var n := |packets| - 1;
      StreamsReplay(log, partial, packets[..n]);
      assert l + Replay(packets) == l + Replay(packets[..n]) + [Media(packets[n].0)];
      StreamsStep(l + Replay(packets[..n]), Media(packets[n].0));
      assert Payloads(packets) == Payloads(packets[..n]) + [packets[n].0];
    }
  }

  lemma StreamsOpened(log: seq<Item>, partial: bool, packets: seq<(Packet, Time)>)
    ensures Streams(log + ([StreamHead(partial)] + Replay(packets))) == Streams(log) + [Payloads(packets)]
  {
    StreamsReplay(log, partial, packets);
    assert log + ([StreamHead(partial)] + Replay(packets)) == log + [StreamHead(partial)] + Replay(packets);
  }

  lemma SegmentGrows(run: seq<Packet>, received: seq<Packet>, p: Packet)
    requires Segment(run, received)
    ensures Segment(run, received + [p])
  {
    var a :| SegmentAt(run, received, a);
    assert SegmentAt(run, received + [p], a);
  }

  lemma UpToDateSegment(run: seq<Packet>, received: seq<Packet>)
    requires UpToDate(run, received)
    ensures Segment(run, received)
  {
    assert SegmentAt(run, received, |received| - |run|);
  }

  lemma UpToDateStep(run: seq<Packet>, received: seq<Packet>, p: Packet)
    requires UpToDate(run, received)
    ensures UpToDate(run + [p], received + [p])
  {
  }

  lemma LogGrows(log: seq<Item>, received: seq<Packet>, p: Packet)
    requires LogOk(log, received)
    ensures LogOk(log, received + [p])
  {
    forall i | 0 <= i < |Streams(log)| ensures Segment(Streams(log)[i], received + [p]) {
      SegmentGrows(Streams(log)[i], received, p);
    }
  }

  /** A reply or a header alone leaves the streams of a log as they are. */
  lemma LogAside(log: seq<Item>, x: Item, received: seq<Packet>)
    requires LogOk(log, received) && (x.HeadOnly? || x.Reply?)
    ensures LogOk(log + [x], received) && (Playing(log, received) ==> Playing(log + [x], received))
  {
    StreamsStep(log, x);
  }

  /** The answer to a stream request starts a stream that is up to date with the window. */
  lemma LogOpens(log: seq<Item>, partial: bool, packets: seq<(Packet, Time)>, received: seq<Packet>)
    requires LogOk(log, received) && UpToDate(Payloads(packets), received)
    ensures var log' := log + ([StreamHead(partial)] + Replay(packets)); LogOk(log', received) && Playing(log', received)
  {
    StreamsOpened(log, partial, packets);
    UpToDateSegment(Payloads(packets), received);
  }

  /** A packet sent to a connection that is served keeps it up to date. */
  lemma LogPlays(log: seq<Item>, received: seq<Packet>, p: Packet)
    requires LogOk(log, received) && Playing(log, received)
    ensures LogOk(log + [Media(p)], received + [p]) && Playing(log + [Media(p)], received + [p])
  {
    StreamsStep(log, Media(p));
    UpToDateStep(Current(log), received, p);
    UpToDateSegment(Current(log) + [p], received + [p]);
    LogGrows(log, received, p);
  }

  // ----------------------------------------------------------------- every event keeps it

  lemma LogSent(out: map<Conn, seq<Item>>, what: map<Conn, seq<Item>>, c: Conn)
    ensures Log(Sent(out, what), c) == Log(out, c) + Log(what, c)
  {
  }

  /** Replies and lone headers, to whichever connections. */
  lemma AsideKeeps(s: Session, conns: set<Conn>, x: Item)
    requires Inv(s) && (x.HeadOnly? || x.Reply?)
    ensures Inv(s.(out := Sent(s.out, ToAll(conns, [x]))))
  {
    var t := s.(out := Sent(s.out, ToAll(conns, [x])));
    forall c ensures LogOk(Log(t.out, c), s.received) && (c in s.stream ==> Playing(Log(t.out, c), s.received)) {
      LogSent(s.out, ToAll(conns, [x]), c);
      LogAside(Log(s.out, c), x, s.received);
      assert Log(s.out, c) + [] == Log(s.out, c);
    }
  }

  lemma StopKeeps(s: Session)
    requires Inv(s)
    ensures Inv(Stopped(s))
  {
  }

  /** Openings sent to some connections, which are then served. */
  lemma OpenKeeps(s: Session, what: map<Conn, bool>)
    requires Inv(s)
    ensures Inv(s.(state := Connected, out := Sent(s.out, Openings(s, what)), stream := s.stream + what.Keys,
                   waiting := map[], head := {}))
  {
    var out := Sent(s.out, Openings(s, what));
    forall c ensures LogOk(Log(out, c), s.received) && (c in s.stream + what.Keys ==> Playing(Log(out, c), s.received)) {
      LogSent(s.out, Openings(s, what), c);
      if c in what {
        LogOpens(Log(s.out, c), s.vod && (what[c] || s.offset > 0), s.packets, s.received);
      } else {
        assert Log(s.out, c) + [] == Log(s.out, c);
      }
    }
  }

  lemma RegisterKeeps(s: Session, sock: Option<Conn>, range: bool, headOnly: bool)
    requires Inv(s)
    ensures Inv(Registered(s, sock, range, headOnly))
  {
    if sock.Some? {
      var c := sock.value;
      if s.state == Disconnected {
        AsideKeeps(s, {c}, Reply(HTTP_BAD_REQUEST));
      } else if s.state == Connected && headOnly {
        AsideKeeps(s, {c}, HeadOnly);
      } else if s.state == Connected {
        OpenKeeps(s, map[c := range]);
        assert s.waiting == map[] && s.head == {};
      }
    }
  }

  lemma LoginKeeps(s: Session)
    requires Inv(s)
    ensures Inv(LoggedIn(s))
  {
    if s.state != Connected {
      OpenKeeps(s, Ready(s));
      assert Ready(s).Keys == s.waiting.Keys * s.open;
      var t := s.(state := Connected, out := Sent(s.out, Openings(s, Ready(s))), stream := s.stream + Ready(s).Keys,
                  waiting := map[], head := {});
      AsideKeeps(t, s.head * s.open, HeadOnly);
    }
  }

  lemma LoginFailedKeeps(s: Session, unauthorized: bool)
    requires Inv(s)
    ensures Inv(LoginFailed(s, unauthorized))
  {
    var x := Reply(if unauthorized then HTTP_UNAUTHORIZED else HTTP_SERVICE_UNAVAILABLE);
    AsideKeeps(s, s.waiting.Keys, x);
    var t := s.(out := Sent(s.out, ToAll(s.waiting.Keys, [x])));
    AsideKeeps(t, s.stream, x);
    var u := t.(out := Sent(t.out, ToAll(s.stream, [x])), waiting := map[], stream := {}, idle := None);
    StopKeeps(u);
  }

  lemma {:induction false} RecentIs(packets: seq<(Packet, Time)>, now: Time, k: nat)
    requires k < |packets| && packets[|packets| - 1].1 == now
    ensures var r := Recent(packets, now, k); r < |packets| && !Passed(packets[r].1, now)
    ensures forall i :: k <= i < Recent(packets, now, k) ==> Passed(packets[i].1, now)
    decreases |packets| - k
  {
    if Passed(packets[k].1, now) {
      RecentIs(packets, now, k + 1);
    }
  }

  /** The window after a packet: an end of what it was, with the packet. */
  lemma TrimmedIs(packets: seq<(Packet, Time)>, now: Time)
    requires packets != [] && packets[|packets| - 1].1 == now
    ensures var r := Trimmed(packets, now);
            0 < |r| <= |packets| && r == packets[|packets| - |r|..] && !Passed(r[0].1, now)
    ensures forall i :: 0 <= i < |packets| - |Trimmed(packets, now)| ==> Passed(packets[i].1, now)
  {
    RecentIs(packets, now, 0);
  }

  /** If the clock does not go back, the window holds exactly the packets of the last six seconds. */
  lemma WindowIs(packets: seq<(Packet, Time)>, now: Time, i: nat)
    requires packets != [] && packets[|packets| - 1].1 == now
    requires forall j, k :: 0 <= j < k < |packets| ==> packets[j].1 <= packets[k].1
    requires i < |packets|
    ensures i >= |packets| - |Trimmed(packets, now)| <==> !Passed(packets[i].1, now)
  {
    TrimmedIs(packets, now);
    var r := Trimmed(packets, now);
    var j := |packets| - |r|;
    assert packets[j] == r[0];
  }

  lemma WindowKeeps(s: Session, p: Packet, now: Time)
    requires UpToDate(Payloads(s.packets), s.received)
    ensures UpToDate(Payloads(Trimmed(s.packets + [(p, now)], now)), s.received + [p])
  {
    var all := s.packets + [(p, now)];
    PayloadsAfter(s.packets, p, now);
    UpToDateStep(Payloads(s.packets), s.received, p);
    PayloadsFrom(all, Recent(all, now, 0));
    UpToDateFrom(Payloads(all), s.received + [p], Recent(all, now, 0));
  }

  lemma PayloadsAfter(packets: seq<(Packet, Time)>, p: Packet, now: Time)
    ensures Payloads(packets + [(p, now)]) == Payloads(packets) + [p]
  {
  }

  lemma PayloadsFrom(packets: seq<(Packet, Time)>, k: nat)
    requires k <= |packets|
    ensures Payloads(packets[k..]) == Payloads(packets)[k..]
  {
  }

  lemma UpToDateFrom(run: seq<Packet>, received: seq<Packet>, k: nat)
    requires UpToDate(run, received) && k <= |run|
    ensures UpToDate(run[k..], received)
  {
  }

  /** A packet and the replies that come with it. */
  lemma AcceptedLogs(s: Session, p: Packet, now: Time, c: Conn)
    requires Inv(s)
    ensures var t := Accepted(s, p, now);
            LogOk(Log(t.out, c), t.received) && LogOk(Log(t.out, c), s.received)
            && (c in s.stream ==> Playing(Log(t.out, c), s.received))
  {
    AsideKeeps(s, s.switching, Reply(HTTP_OK));
    var out := Sent(s.out, ToAll(s.switching, [Reply(HTTP_OK)]));
    assert Inv(s.(out := out));
    LogGrows(Log(out, c), s.received, p);
  }

  lemma DeliveredLogs(s: Session, p: Packet, now: Time, c: Conn)
    requires Inv(s)
    ensures var t := Accepted(s, p, now);
            var log := Log(Sent(t.out, ToAll(t.stream * t.open, [Media(p)])), c);
            LogOk(log, t.received) && (c in t.stream * t.open ==> Playing(log, t.received))
  {
    var t := Accepted(s, p, now);
    var what := ToAll(t.stream * t.open, [Media(p)]);
    AcceptedLogs(s, p, now, c);
    LogSent(t.out, what, c);
    if c in t.stream * t.open {
      LogPlays(Log(t.out, c), s.received, p);
    } else {
      assert Log(t.out, c) + [] == Log(t.out, c);
    }
  }

  lemma AcceptedWindowKeeps(s: Session, p: Packet, now: Time)
    requires Inv(s)
    ensures var t := Accepted(s, p, now); UpToDate(Payloads(t.packets), t.received) && (t.vod ==> t.packets == [])
  {
    WindowKeeps(s, p, now);
  }

  /** A packet while somebody is served. */
  lemma ServedKeeps(s: Session, p: Packet, now: Time)
    requires Inv(s) && s.state == Connected && s.stream != {}
    ensures Inv(Received(s, p, now))
  {
    var t := Accepted(s, p, now);
    AcceptedWindowKeeps(s, p, now);
    forall c ensures
      var log := Log(Sent(t.out, ToAll(t.stream * t.open, [Media(p)])), c);
      LogOk(log, t.received) && (c in t.stream * t.open ==> Playing(log, t.received))
    {
      DeliveredLogs(s, p, now, c);
    }
  }

  /** A packet while nobody is served. */
  lemma UnservedKeeps(s: Session, p: Packet, now: Time)
    requires Inv(s) && s.state == Connected && s.stream == {}
    ensures Inv(Received(s, p, now))
  {
    var t := Accepted(s, p, now);
    AcceptedWindowKeeps(s, p, now);
    forall c ensures LogOk(Log(t.out, c), t.received) {
      AcceptedLogs(s, p, now, c);
    }
    StopKeeps(t);
  }

  /** A packet keeps every connection that is served up to date. */
  lemma ReceiveKeeps(s: Session, p: Packet, now: Time)
    requires Inv(s)
    ensures Inv(Received(s, p, now))
  {
    if s.state != Connected {
      StopKeeps(s);
    } else if s.stream != {} {
      ServedKeeps(s, p, now);
    } else {
      UnservedKeeps(s, p, now);
    }
  }

  lemma PlayKeeps(s: Session, link: string, vod: bool, offset: int, sock: Option<Conn>, range: bool, headOnly: bool)
    requires Inv(s)
    ensures Inv(Played(s, link, vod, offset, sock, range, headOnly))
  {
    StopKeeps(s);
    RegisterKeeps(Channel(s, link, vod, offset), sock, range, headOnly);
  }

  lemma StopCommandKeeps(s: Session, link: string, c: Conn)
    requires Inv(s)
    ensures Inv(StopAsked(s, link, c))
  {
    StopKeeps(s);
    AsideKeeps(Stopped(s), {c}, Reply(HTTP_OK));
  }

  lemma SwitchKeeps(s: Session, c: Conn, link: string, vod: bool, offset: int)
    requires Inv(s)
    ensures Inv(SwitchAsked(s, c, link, vod, offset))
  {
    AsideKeeps(s, s.switching, Reply(HTTP_REQUEST_TIMEOUT));
    PlayKeeps(s.(out := Sent(s.out, ToAll(s.switching, [Reply(HTTP_REQUEST_TIMEOUT)])), switching := {c}),
              link, vod, offset, None, false, false);
  }

  lemma RangeKeeps(s: Session, link: string, c: Conn)
    requires Inv(s)
    ensures Inv(RangeAsked(s, link, c))
  {
    RegisterKeeps(s, Some(c), false, true);
    AsideKeeps(s, {c}, Reply(HTTP_NOT_FOUND));
  }

  // ---------------------------------------------------------------------------- whole runs

  /** What can happen to a session; `Lost` is a connection that its peer closes. */
  datatype Event =
    | Play(link: string, vod: bool, offset: int, sock: Option<Conn>, range: bool, headOnly: bool)
    | StopCommand(link: string, conn: Conn)
    | SwitchCommand(conn: Conn, link: string, vod: bool, offset: int)
    | RangeCommand(link: string, conn: Conn)
    | LoginSucceeded
    | LoginRefused(unauthorized: bool)
    | MediaPacket(packet: Packet, now: Time)
    | MediaEnd
    | Lost(conn: Conn)
    | Disconnection(conn: Conn)
    | Stop

  function Apply(s: Session, e: Event): Session {
    match e
    case Play(link, vod, offset, sock, range, headOnly) => Played(s, link, vod, offset, sock, range, headOnly)
    case StopCommand(link, c) => StopAsked(s, link, c)
    case SwitchCommand(c, link, vod, offset) => SwitchAsked(s, c, link, vod, offset)
    case RangeCommand(link, c) => RangeAsked(s, link, c)
    case LoginSucceeded => LoggedIn(s)
    case LoginRefused(unauthorized) => LoginFailed(s, unauthorized)
    case MediaPacket(p, now) => Received(s, p, now)
    case MediaEnd => Ended(s)
    case Lost(c) => s.(open := s.open - {c})
    case Disconnection(c) => Forgotten(s, c)
    case Stop => Stopped(s)
  }

  lemma EventKeeps(s: Session, e: Event)
    requires Inv(s)
    ensures Inv(Apply(s, e))
  {
    match e
    case Play(link, vod, offset, sock, range, headOnly) => PlayKeeps(s, link, vod, offset, sock, range, headOnly);
    case StopCommand(link, c) => StopCommandKeeps(s, link, c);
    case SwitchCommand(c, link, vod, offset) => SwitchKeeps(s, c, link, vod, offset);
    case RangeCommand(link, c) => RangeKeeps(s, link, c);
    case Stop => StopKeeps(s);
    case LoginSucceeded => LoginKeeps(s);
    case LoginRefused(unauthorized) => LoginFailedKeeps(s, unauthorized);
    case MediaPacket(p, now) => ReceiveKeeps(s, p, now);
    case _ =>
  }

  /** A session in which nothing has happened. */
  ghost function Unused(open: set<Conn>): Session {
    Session(Disconnected, "", false, 0, {}, {}, {}, map[], None, [], open, map[], [], [], 0)
  }

  lemma UnusedKeeps(open: set<Conn>)
    ensures Inv(Unused(open))
  {
    assert SegmentAt([], [], 0);
  }

  /** The session after the first `n` of some events. */
  ghost function RunTo(open: set<Conn>, events: seq<Event>, n: nat): Session
    requires n <= |events|
  {
    if n == 0 then Unused(open) else Apply(RunTo(open, events, n - 1), events[n - 1])
  }

  ghost function Run(open: set<Conn>, events: seq<Event>): Session {
    RunTo(open, events, |events|)
  }

  lemma {:induction false} RunToKeeps(open: set<Conn>, events: seq<Event>, n: nat)
    requires n <= |events|
    ensures Inv(RunTo(open, events, n))
  {
    if n == 0 {
      UnusedKeeps(open);
    } else {
      RunToKeeps(open, events, n - 1);
      EventKeeps(RunTo(open, events, n - 1), events[n - 1]);
    }
  }

  /** After every run, connections wait only while the login is under way and are served only while
      the session is connected, every stream that any connection was ever sent is a run of the
      received packets without gap or repetition, and each connection that is being served has
      everything up to the latest packet. */
  lemma RunKeeps(open: set<Conn>, events: seq<Event>)
    ensures Inv(Run(open, events))
  {
    RunToKeeps(open, events, |events|);
  }

  // ------------------------------------------------------------- where a stream begins

  /** The number of the first packet of the stream that a connection is being sent. */
  ghost function Begin(s: Session, c: Conn): int {
    |s.received| - |Current(Log(s.out, c))|
  }

  lemma CurrentAside(out: map<Conn, seq<Item>>, conns: set<Conn>, x: Item, c: Conn)
    requires x.HeadOnly? || x.Reply?
    ensures Current(Log(Sent(out, ToAll(conns, [x])), c)) == Current(Log(out, c))
  {
    LogSent(out, ToAll(conns, [x]), c);
    if c in conns {
      StreamsStep(Log(out, c), x);
    } else {
      assert Log(out, c) + [] == Log(out, c);
    }
  }

  /** A connection that stays served gets the packet. */
  lemma CurrentReceived(s: Session, p: Packet, now: Time, c: Conn)
    requires Inv(s) && c in s.stream && c in Received(s, p, now).stream
    ensures Received(s, p, now).received == s.received + [p]
    ensures Current(Log(Received(s, p, now).out, c)) == Current(Log(s.out, c)) + [p]
  {
    var t := Accepted(s, p, now);
    CurrentAside(s.out, s.switching, Reply(HTTP_OK), c);
    CurrentMedia(t.out, t.stream * t.open, p, c);
  }

  lemma CurrentMedia(out: map<Conn, seq<Item>>, conns: set<Conn>, p: Packet, c: Conn)
    requires c in conns
    ensures Current(Log(Sent(out, ToAll(conns, [Media(p)])), c)) == Current(Log(out, c)) + [p]
  {
    LogSent(out, ToAll(conns, [Media(p)]), c);
    StreamsStep(Log(out, c), Media(p));
  }

  lemma CurrentRegistered(s: Session, sock: Option<Conn>, range: bool, headOnly: bool, c: Conn)
    requires s.state == Connected && (sock == Some(c) ==> headOnly)
    ensures var t := Registered(s, sock, range, headOnly);
            t.received == s.received && Current(Log(t.out, c)) == Current(Log(s.out, c))
  {
    if sock.Some? {
      if headOnly {
        CurrentAside(s.out, {sock.value}, HeadOnly, c);
      } else {
        LogSent(s.out, Openings(s, map[sock.value := range]), c);
        assert Log(s.out, c) + [] == Log(s.out, c);
      }
    }
  }

  ghost predicate Asks(e: Event, c: Conn) {
    e.Play? && e.sock == Some(c) && !e.headOnly
  }

  lemma BeginPlayed(s: Session, link: string, vod: bool, offset: int, sock: Option<Conn>, range: bool, headOnly: bool,
                    c: Conn)
    requires Inv(s) && c in s.stream && (sock == Some(c) ==> headOnly)
    requires c in Played(s, link, vod, offset, sock, range, headOnly).stream
    ensures Begin(Played(s, link, vod, offset, sock, range, headOnly), c) == Begin(s, c)
  {
    if link == s.link {
      CurrentRegistered(if vod then s.(offset := offset) else s, sock, range, headOnly, c);
    }
  }

  lemma BeginSwitched(s: Session, d: Conn, link: string, vod: bool, offset: int, c: Conn)
    requires Inv(s) && c in s.stream && c in SwitchAsked(s, d, link, vod, offset).stream
    ensures Begin(SwitchAsked(s, d, link, vod, offset), c) == Begin(s, c)
  {
    AsideKeeps(s, s.switching, Reply(HTTP_REQUEST_TIMEOUT));
    CurrentAside(s.out, s.switching, Reply(HTTP_REQUEST_TIMEOUT), c);
    BeginPlayed(s.(out := Sent(s.out, ToAll(s.switching, [Reply(HTTP_REQUEST_TIMEOUT)])), switching := {d}),
                link, vod, offset, None, false, false, c);
  }

  lemma BeginRanged(s: Session, link: string, d: Conn, c: Conn)
    requires Inv(s) && c in s.stream
    ensures Begin(RangeAsked(s, link, d), c) == Begin(s, c)
  {
    if link == s.link {
      CurrentRegistered(s, Some(d), false, true, c);
    } else {
      CurrentAside(s.out, {d}, Reply(HTTP_NOT_FOUND), c);
    }
  }

  lemma BeginReceived(s: Session, p: Packet, now: Time, c: Conn)
    requires Inv(s) && c in s.stream && c in Received(s, p, now).stream
    ensures Begin(Received(s, p, now), c) == Begin(s, c)
  {
    CurrentReceived(s, p, now, c);
  }

  /** As long as a connection is served and asks for nothing else, its stream goes on: it begins
      where it began and so holds every packet since. */
  lemma BeginStays(s: Session, e: Event, c: Conn)
    requires Inv(s) && c in s.stream && c in Apply(s, e).stream && !Asks(e, c)
    ensures Begin(Apply(s, e), c) == Begin(s, c)
  {
    match e
    case Play(link, vod, offset, sock, range, headOnly) => BeginPlayed(s, link, vod, offset, sock, range, headOnly, c);
    case SwitchCommand(d, link, vod, offset) => BeginSwitched(s, d, link, vod, offset, c);
    case RangeCommand(link, d) => BeginRanged(s, link, d, c);
    case MediaPacket(p, now) => BeginReceived(s, p, now, c);
    case _ =>
  }

  /** A connection is served throughout a run that follows a state, without asking again. */
  ghost predicate ServedThroughout(s: Session, events: seq<Event>, c: Conn)
    decreases |events|
  {
    c in s.stream && (events != [] ==> !Asks(events[0], c) && ServedThroughout(Apply(s, events[0]), events[1..], c))
  }

  ghost function RunFrom(s: Session, events: seq<Event>): Session
    decreases |events|
  {
    if events == [] then s else RunFrom(Apply(s, events[0]), events[1..])
  }

  /** From the answer to its request on, a connection is sent the window and then every packet. */
  lemma {:induction false} ServedWithoutGap(s: Session, events: seq<Event>, c: Conn)
    requires Inv(s) && ServedThroughout(s, events, c)
    ensures var t := RunFrom(s, events);
            Inv(t) && c in t.stream && Begin(t, c) == Begin(s, c) && 0 <= Begin(s, c) <= |t.received|
            && Current(Log(t.out, c)) == t.received[Begin(s, c)..]
    decreases |events|
  {
    if events == [] {
      assert Playing(Log(s.out, c), s.received);
    } else {
      EventKeeps(s, events[0]);
      BeginStays(s, events[0], c);
      ServedWithoutGap(Apply(s, events[0]), events[1..], c);
    }
  }

  // ------------------------------------------------------------- the window of a whole run

  /** The times of the received packets do not go back, and none lies after `now`. */
  ghost predicate Clocked(s: Session, now: Time) {
    && |s.times| == |s.received|
    && s.since <= |s.times|
    && (forall i :: 0 <= i < |s.times| ==> s.times[i] <= now)
    && (forall i, j :: 0 <= i < j < |s.times| ==> s.times[i] <= s.times[j])
  }

  /** The entries of a window hold the times of the latest packets. */
  ghost predicate Latest(packets: seq<(Packet, Time)>, times: seq<Time>) {
    |packets| <= |times| && forall i :: 0 <= i < |packets| ==> packets[i].1 == times[|times| - |packets| + i]
  }

  /** Packet number `i` is in a window of `n` packets just if it was not older than six seconds when
      the latest packet came. */
  ghost predicate KeptIffRecent(n: nat, times: seq<Time>, i: nat)
    requires i < |times|
  {
    i >= |times| - n <==> !Passed(times[i], times[|times| - 1])
  }

  /** The window of a live session that is connected is exactly the packets accepted since it was
      connected that were not older than six seconds when the latest came. */
  ghost predicate Windowed(s: Session) {
    s.state == Connected && !s.vod ==>
      && Latest(s.packets, s.times)
      && |s.packets| <= |s.times| - s.since
      && forall i :: s.since <= i < |s.times| ==> KeptIffRecent(|s.packets|, s.times, i)
  }

  /** A step that accepts no packet and does not connect the session. */
  ghost predicate Quiet(s: Session, t: Session) {
    && t.received == s.received && t.times == s.times && t.since == s.since
    && (t.state == Connected ==> s.state == Connected && t.vod == s.vod && t.packets == s.packets)
  }

  lemma QuietKeeps(s: Session, t: Session, now: Time)
    requires Clocked(s, now) && Windowed(s) && Quiet(s, t)
    ensures Clocked(t, now) && Windowed(t)
  {
  }

  lemma QuietRegistered(s: Session, sock: Option<Conn>, range: bool, headOnly: bool)
    ensures Quiet(s, Registered(s, sock, range, headOnly))
  {
  }

  lemma QuietPlayed(s: Session, link: string, vod: bool, offset: int, sock: Option<Conn>, range: bool, headOnly: bool)
    ensures Quiet(s, Played(s, link, vod, offset, sock, range, headOnly))
  {
    var u := Channel(s, link, vod, offset);
    assert Quiet(s, u);
    QuietRegistered(u, sock, range, headOnly);
  }

  lemma QuietEvent(s: Session, e: Event)
    requires !e.LoginSucceeded? && !e.MediaPacket?
    ensures Quiet(s, Apply(s, e))
  {
    match e
    case Play(link, vod, offset, sock, range, headOnly) => QuietPlayed(s, link, vod, offset, sock, range, headOnly);
    case SwitchCommand(c, link, vod, offset) =>
      QuietPlayed(s.(out := Sent(s.out, ToAll(s.switching, [Reply(HTTP_REQUEST_TIMEOUT)])), switching := {c}),
                  link, vod, offset, None, false, false);
    case RangeCommand(link, c) => QuietRegistered(s, Some(c), false, true);
    case _ =>
  }

  lemma LatestAfter(packets: seq<(Packet, Time)>, times: seq<Time>, p: Packet, now: Time)
    requires Latest(packets, times)
    ensures Latest(packets + [(p, now)], times + [now])
    ensures Latest(Trimmed(packets + [(p, now)], now), times + [now])
  {
    TrimmedIs(packets + [(p, now)], now);
  }

  /** A packet that the window held before the latest came, or the latest. */
  lemma RecentAmong(packets: seq<(Packet, Time)>, times: seq<Time>, now: Time, i: nat)
    requires Latest(packets, times) && packets != [] && times[|times| - 1] == now
    requires forall j, k :: 0 <= j < k < |times| ==> times[j] <= times[k]
    requires |times| - |packets| <= i < |times|
    ensures KeptIffRecent(|Trimmed(packets, now)|, times, i)
  {
    WindowIs(packets, now, i - (|times| - |packets|));
  }

  /** A packet that the window had let go stays too old. */
  lemma NotRecentAgain(packets: seq<(Packet, Time)>, times: seq<Time>, p: Packet, now: Time, i: nat)
    requires Latest(packets, times) && i < |times| - |packets| && KeptIffRecent(|packets|, times, i)
    requires times[|times| - 1] <= now
    ensures KeptIffRecent(|Trimmed(packets + [(p, now)], now)|, times + [now], i)
  {
    TrimmedIs(packets + [(p, now)], now);
  }

  /** The window of times after one more packet. */
  lemma WindowSlides(packets: seq<(Packet, Time)>, times: seq<Time>, since: nat, p: Packet, now: Time, i: nat)
    requires Latest(packets, times) && since <= i <= |times| && |packets| <= |times| - since
    requires forall j :: since <= j < |times| ==> KeptIffRecent(|packets|, times, j)
    requires forall j, k :: 0 <= j < k < |times| ==> times[j] <= times[k]
    requires forall j :: 0 <= j < |times| ==> times[j] <= now
    ensures KeptIffRecent(|Trimmed(packets + [(p, now)], now)|, times + [now], i)
  {
    if i < |times| - |packets| {
      NotRecentAgain(packets, times, p, now, i);
    } else {
      LatestAfter(packets, times, p, now);
      RecentAmong(packets + [(p, now)], times + [now], now, i);
    }
  }

  lemma TimesGrow(times: seq<Time>, now: Time)
    requires forall i :: 0 <= i < |times| ==> times[i] <= now
    requires forall i, j :: 0 <= i < j < |times| ==> times[i] <= times[j]
    ensures forall i :: 0 <= i < |times + [now]| ==> (times + [now])[i] <= now
    ensures forall i, j :: 0 <= i < j < |times + [now]| ==> (times + [now])[i] <= (times + [now])[j]
  {
  }

  lemma AcceptedClocked(s: Session, p: Packet, now: Time)
    requires Clocked(s, now)
    ensures Clocked(Accepted(s, p, now), now)
  {
    TimesGrow(s.times, now);
  }

  /** A packet that is accepted. */
  lemma AcceptedWindow(s: Session, p: Packet, now: Time)
    requires s.state == Connected && Clocked(s, now) && Windowed(s)
    ensures Windowed(Accepted(s, p, now))
  {
    if !s.vod {
      LatestAfter(s.packets, s.times, p, now);
      TrimmedIs(s.packets + [(p, now)], now);
      forall i | s.since <= i <= |s.times|
        ensures KeptIffRecent(|Trimmed(s.packets + [(p, now)], now)|, s.times + [now], i)
      {
        WindowSlides(s.packets, s.times, s.since, p, now, i);
      }
    }
  }

  lemma ReceivedWindow(s: Session, p: Packet, now: Time)
    requires Clocked(s, now) && Windowed(s)
    ensures Clocked(Received(s, p, now), now) && Windowed(Received(s, p, now))
  {
    if s.state == Connected {
      AcceptedClocked(s, p, now);
      AcceptedWindow(s, p, now);
      QuietKeeps(Accepted(s, p, now), Received(s, p, now), now);
    } else {
      QuietKeeps(s, Received(s, p, now), now);
    }
  }

  lemma LoginWindow(s: Session, now: Time)
    requires Inv(s) && Clocked(s, now) && Windowed(s)
    ensures Clocked(LoggedIn(s), now) && Windowed(LoggedIn(s))
  {
  }

  lemma WindowStep(s: Session, e: Event, now: Time)
    requires Timely(s, now) && (e.MediaPacket? ==> e.now == now)
    ensures Timely(Apply(s, e), now)
  {
    EventKeeps(s, e);
    if e.MediaPacket? {
      ReceivedWindow(s, e.packet, now);
    } else if e.LoginSucceeded? {
      LoginWindow(s, now);
    } else {
      QuietEvent(s, e);
      QuietKeeps(s, Apply(s, e), now);
    }
  }

  lemma ClockedUntil(s: Session, before: Time, now: Time)
    requires Timely(s, before) && before <= now
    ensures Timely(s, now)
  {
  }

  /** The first `n` events bring their packets in the order of their times, up to `now`. */
  ghost predicate InOrder(events: seq<Event>, n: nat, now: Time)
    requires n <= |events|
  {
    && (forall i :: 0 <= i < n && events[i].MediaPacket? ==> events[i].now <= now)
    && (forall i, j :: 0 <= i < j < n && events[i].MediaPacket? && events[j].MediaPacket? ==>
          events[i].now <= events[j].now)
  }

  /** What an unused session has, every event keeps and the passing of time keeps, holds after every
      run in which the clock does not go back. */
  lemma {:induction false} ClockInduction(open: set<Conn>, events: seq<Event>, n: nat, now: Time,
                                          p: (Session, Time) -> bool)
    requires n <= |events| && InOrder(events, n, now)
    requires forall t :: p(Unused(open), t)
    requires forall s, e: Event, t :: p(s, t) && (e.MediaPacket? ==> e.now == t) ==> p(Apply(s, e), t)
    requires forall s, t, u :: p(s, t) && t <= u ==> p(s, u)
    ensures p(RunTo(open, events, n), now)
    decreases n
  {
    if n > 0 {
      var e := events[n - 1];
      var before := if e.MediaPacket? then e.now else now;
      ClockInduction(open, events, n - 1, before, p);
      assert p(Apply(RunTo(open, events, n - 1), e), before);
    }
  }

  ghost predicate Timely(s: Session, now: Time) {
    Inv(s) && Clocked(s, now) && Windowed(s)
  }

  /** After every run in which the clock does not go back, the window of a live session that is
      connected is exactly the packets accepted since it was connected that were not older than six
      seconds when the latest came. */
  lemma WindowOfRun(open: set<Conn>, events: seq<Event>, now: Time)
    requires InOrder(events, |events|, now)
    ensures Clocked(Run(open, events), now) && Windowed(Run(open, events))
  {
    forall t ensures Timely(Unused(open), t) {
      UnusedKeeps(open);
    }
    forall s, e: Event, t | Timely(s, t) && (e.MediaPacket? ==> e.now == t) ensures Timely(Apply(s, e), t) {
      WindowStep(s, e, t);
    }
    forall s, t, u | Timely(s, t) && t <= u ensures Timely(s, u) {
      ClockedUntil(s, t, u);
    }
    ClockInduction(open, events, |events|, now, Timely);
  }

  // ------------------------------------------------------- what a caller sees of each event

  /** Every connection but one keeps its log and its place. */
  ghost predicate OnlyFor(s: Session, t: Session, c: Conn) {
    forall d :: d != c ==>
      && Log(t.out, d) == Log(s.out, d)
      && (d in t.stream <==> d in s.stream) && (d in t.waiting <==> d in s.waiting) && (d in t.head <==> d in s.head)
      && (d in t.waiting && d in s.waiting ==> t.waiting[d] == s.waiting[d])
  }

  ghost predicate Nowhere(t: Session, c: Conn) {
    c !in t.stream && c !in t.waiting && c !in t.head
  }

  /** A connection was sent one item that belongs to no stream. */
  ghost predicate Answered(s: Session, t: Session, c: Conn, x: Item) {
    Log(t.out, c) == Log(s.out, c) + [x] && Streams(Log(t.out, c)) == Streams(Log(s.out, c))
  }

  /** A connection was sent a header, which says whether the content is partial, and a new stream that
      holds the window. */
  ghost predicate Opened(s: Session, t: Session, c: Conn, range: bool) {
    && |Log(t.out, c)| > |Log(s.out, c)|
    && Log(t.out, c)[|Log(s.out, c)|] == StreamHead(s.vod && (range || s.offset > 0))
    && Streams(Log(t.out, c)) == Streams(Log(s.out, c)) + [Payloads(s.packets)]
  }

  /** A request for a stream or its header, by one connection. */
  ghost predicate Asked(s: Session, t: Session, c: Conn, range: bool, headOnly: bool) {
    && OnlyFor(s, t, c)
    && match s.state
       case Disconnected => Answered(s, t, c, Reply(HTTP_BAD_REQUEST)) && Nowhere(t, c)
       case Connecting =>
         && t.out == s.out
         && if headOnly then c in t.head else c in t.waiting && t.waiting[c] == if c in s.waiting then s.waiting[c] else range
       case Connected =>
         if c !in s.open then t == s
         else if headOnly then Answered(s, t, c, HeadOnly) && (c in t.stream <==> c in s.stream)
         else c in t.stream && Opened(s, t, c, range)
  }

  /** The session itself, apart from who is served. */
  ghost predicate SameSession(s: Session, t: Session) {
    t.state == s.state && t.link == s.link && t.packets == s.packets && t.received == s.received && t.open == s.open
      && t.switching == s.switching && t.vod == s.vod && t.offset == s.offset && t.idle == s.idle
  }

  ghost predicate RegisterSeen(s: Session, t: Session, sock: Option<Conn>, range: bool, headOnly: bool) {
    SameSession(s, t) && if sock.Some? then Asked(s, t, sock.value, range, headOnly) else t == s
  }

  lemma OthersKept(out: map<Conn, seq<Item>>, what: map<Conn, seq<Item>>, c: Conn)
    requires what.Keys == {c}
    ensures forall d :: d != c ==> Log(Sent(out, what), d) == Log(out, d)
  {
    forall d | d != c ensures Log(Sent(out, what), d) == Log(out, d) {
      assert Log(out, d) + [] == Log(out, d);
    }
  }

  lemma OneAnswered(s: Session, t: Session, c: Conn, x: Item)
    requires (x.HeadOnly? || x.Reply?) && t.out == Sent(s.out, ToAll({c}, [x]))
    ensures Answered(s, t, c, x) && forall d :: d != c ==> Log(t.out, d) == Log(s.out, d)
  {
    StreamsStep(Log(s.out, c), x);
    OthersKept(s.out, ToAll({c}, [x]), c);
  }

  lemma OneOpened(s: Session, out: map<Conn, seq<Item>>, c: Conn, range: bool)
    requires out == Sent(s.out, Openings(s, map[c := range]))
    ensures Opened(s, s.(out := out), c, range)
    ensures forall d :: d != c ==> Log(out, d) == Log(s.out, d)
  {
    LogSent(s.out, Openings(s, map[c := range]), c);
    StreamsOpened(Log(s.out, c), s.vod && (range || s.offset > 0), s.packets);
    OthersKept(s.out, Openings(s, map[c := range]), c);
  }

  lemma RegisterShows(s: Session, sock: Option<Conn>, range: bool, headOnly: bool)
    requires Places(s)
    ensures RegisterSeen(s, Registered(s, sock, range, headOnly), sock, range, headOnly)
  {
    if sock.Some? {
      var c := sock.value;
      var t := Registered(s, sock, range, headOnly);
      if s.state == Disconnected {
        OneAnswered(s, t, c, Reply(HTTP_BAD_REQUEST));
      } else if s.state == Connected && c in s.open {
        if headOnly {
          OneAnswered(s, t, c, HeadOnly);
        } else {
          OneOpened(s, t.out, c, range);
        }
      }
    }
  }

  /** An answer to a stream request begins with the window. */
  lemma BeginsWithWindow(s: Session, c: Conn, range: bool)
    requires Inv(s) && s.state == Connected && c in s.open
    ensures var t := Registered(s, Some(c), range, false);
            c in t.stream && Current(Log(t.out, c)) == Payloads(s.packets) && Begin(t, c) == |s.received| - |s.packets|
  {
    RegisterShows(s, Some(c), range, false);
  }

  /** A connection that is gone is neither served nor waited for, and no other notices. */
  ghost predicate ForgetSeen(s: Session, t: Session, c: Conn) {
    SameSession(s, t) && OnlyFor(s, t, c) && Nowhere(t, c) && t.out == s.out
  }

  /** Nobody is served and nothing is kept; those who were served or waited are closed, unanswered. */
  ghost predicate StopSeen(s: Session, t: Session) {
    && t.state == Disconnected && t.stream == {} && t.waiting == map[] && t.head == {} && t.packets == []
    && t.out == s.out && t.received == s.received
    && (s.state != Disconnected ==> t.switching == {} && t.open == s.open - s.stream - s.waiting.Keys - s.head - s.switching)
    && (s.state == Disconnected ==> t == s)
  }

  lemma StopShows(s: Session)
    requires Inv(s)
    ensures StopSeen(s, Stopped(s))
  {
  }

  /** A request for a channel: the session is the one of that channel and not disconnected.  If it
      was so before, those who were served still are; if not, it starts anew and those of the other
      channel are closed.  The request is then registered. */
  ghost predicate PlaySeen(s: Session, t: Session, link: string, vod: bool, offset: int, sock: Option<Conn>, range: bool,
                           headOnly: bool)
  {
    && t.link == link && t.state != Disconnected && t.received == s.received
    && (s.link == link && s.state != Disconnected ==>
          RegisterSeen(if vod then s.(offset := offset) else s, t, sock, range, headOnly))
    && (s.link != link || s.state == Disconnected ==>
          && t.state == Connecting && t.stream == {} && t.packets == [] && t.out == s.out
          && t.vod == vod && t.offset == offset
          && (sock.Some? ==> if headOnly then sock.value in t.head else sock.value in t.waiting)
          && t.head + t.waiting.Keys <= (if sock.Some? then {sock.value} else {})
          && (s.state != Disconnected ==>
                t.switching == {} && t.open == s.open - s.stream - s.waiting.Keys - s.head - s.switching)
          && (s.state == Disconnected ==> t.switching == s.switching && t.open == s.open))
  }

  lemma PlayShows(s: Session, link: string, vod: bool, offset: int, sock: Option<Conn>, range: bool, headOnly: bool)
    requires Inv(s)
    ensures PlaySeen(s, Played(s, link, vod, offset, sock, range, headOnly), link, vod, offset, sock, range, headOnly)
  {
    if s.link == link && s.state != Disconnected {
      RegisterShows(if vod then s.(offset := offset) else s, sock, range, headOnly);
    } else {
      StopShows(s);
    }
  }

  /** A command to stop the channel: whoever gave it is answered once all has stopped; for another
      channel nothing happens. */
  ghost predicate StopCommandSeen(s: Session, t: Session, link: string, c: Conn) {
    if link != s.link then t == s
    else
      && StopSeen(s, t.(out := s.out))
      && Answered(s, t, c, Reply(HTTP_OK))
      && forall d :: d != c ==> Log(t.out, d) == Log(s.out, d)
  }

  lemma StopCommandShows(s: Session, link: string, c: Conn)
    requires Inv(s)
    ensures StopCommandSeen(s, StopAsked(s, link, c), link, c)
  {
    if link == s.link {
      StopShows(s);
      OneAnswered(s, StopAsked(s, link, c), c, Reply(HTTP_OK));
    }
  }

  /** A command to switch to a channel.  The switches under way before are told that they timed out,
      and nobody else is sent anything.  Whoever gave the command waits for the first packet, unless
      another channel was running: then it is closed with those of that channel, unanswered. */
  ghost predicate SwitchSeen(s: Session, t: Session, c: Conn, link: string) {
    && t.link == link && t.state != Disconnected && t.received == s.received
    && (forall d :: Log(t.out, d) == Log(s.out, d) + if d in s.switching then [Reply(HTTP_REQUEST_TIMEOUT)] else [])
    && (c in t.switching <==> s.state == Disconnected || s.link == link)
    && t.switching <= {c}
    && (c !in t.switching ==> c !in t.open)
  }

  lemma SwitchShows(s: Session, c: Conn, link: string, vod: bool, offset: int)
    requires Inv(s)
    ensures SwitchSeen(s, SwitchAsked(s, c, link, vod, offset), c, link)
  {
    var u := s.(out := Sent(s.out, ToAll(s.switching, [Reply(HTTP_REQUEST_TIMEOUT)])), switching := {c});
    AsideKeeps(s, s.switching, Reply(HTTP_REQUEST_TIMEOUT));
    PlayShows(u, link, vod, offset, None, false, false);
    assert Played(u, link, vod, offset, None, false, false).out == u.out;
  }

  /** A player that watches one channel and asks to switch to another gets no answer: its connection
      is closed. */
  lemma SwitchLost(c: Conn, link: string, other: string, s: Session, t: Session)
    requires link != other && s == Played(Unused({c}), other, false, 0, None, false, false)
    requires t == SwitchAsked(s, c, link, false, 0)
    ensures s.state == Connecting && c in s.open
    ensures c !in t.switching && c !in t.open && Log(t.out, c) == []
  {
    UnusedKeeps({c});
    PlayKeeps(Unused({c}), other, false, 0, None, false, false);
    SwitchShows(s, c, link, false, 0);
  }

  /** A command for the header of a stream, which is only given for the channel that runs. */
  ghost predicate RangeSeen(s: Session, t: Session, link: string, c: Conn) {
    if link == s.link then RegisterSeen(s, t, Some(c), false, true)
    else SameSession(s, t) && OnlyFor(s, t, c) && Answered(s, t, c, Reply(HTTP_NOT_FOUND))
  }

  lemma RangeShows(s: Session, link: string, c: Conn)
    requires Inv(s)
    ensures RangeSeen(s, RangeAsked(s, link, c), link, c)
  {
    if link == s.link {
      RegisterShows(s, Some(c), false, true);
    } else {
      OneAnswered(s, RangeAsked(s, link, c), c, Reply(HTTP_NOT_FOUND));
    }
  }

  /** What a connection is sent when the login succeeds: its stream if it waits for one and its header
      if it asked for that, both only if it is open. */
  ghost predicate LoginSentTo(s: Session, t: Session, c: Conn) {
    var waits, asks := c in s.waiting && c in s.open, c in s.head && c in s.open;
    var before, after := Log(s.out, c), Log(t.out, c);
    && before <= after && |after| == |before| + (if waits then 1 + |s.packets| else 0) + (if asks then 1 else 0)
    && (waits ==> Opened(s, t, c, s.waiting[c]))
    && (asks ==> after[|after| - 1] == HeadOnly)
    && (!waits && asks ==> Answered(s, t, c, HeadOnly))
    && (!waits && !asks ==> after == before)
  }

  /** After a login that succeeds those who waited and are open are served, and nobody waits. */
  ghost predicate LoginSeen(s: Session, t: Session) {
    if s.state == Connected then t == s
    else
      && t.state == Connected && t.waiting == map[] && t.head == {}
      && SameSession(s, t.(state := s.state))
      && (forall c :: c in t.stream <==> c in s.stream || (c in s.waiting && c in s.open))
      && forall c :: LoginSentTo(s, t, c)
  }

  lemma LoginShows(s: Session)
    requires Inv(s)
    ensures LoginSeen(s, LoggedIn(s))
  {
    if s.state != Connected {
      forall c ensures LoginSentTo(s, LoggedIn(s), c) {
        LoginShowsOne(s, c);
      }
    }
  }

  lemma LoginShowsOne(s: Session, c: Conn)
    requires s.state != Connected
    ensures LoginSentTo(s, LoggedIn(s), c)
  {
    var range := c in s.waiting && s.waiting[c];
    LoginLog(s, c);
    LoginLogReads(Log(s.out, c), s.vod && (range || s.offset > 0), s.packets, c in s.waiting && c in s.open,
                  c in s.head && c in s.open);
  }

  /** What a connection is sent: the opening of a stream if it waits, and then a header if it asked. */
  function LoginLogOf(log: seq<Item>, partial: bool, packets: seq<(Packet, Time)>, waits: bool, asks: bool): seq<Item> {
    var mid := if waits then log + ([StreamHead(partial)] + Replay(packets)) else log;
    if asks then mid + [HeadOnly] else mid
  }

  lemma LoginLog(s: Session, c: Conn)
    requires s.state != Connected
    ensures var range := c in s.waiting && s.waiting[c];
            Log(LoggedIn(s).out, c) ==
              LoginLogOf(Log(s.out, c), s.vod && (range || s.offset > 0), s.packets, c in s.waiting && c in s.open,
                         c in s.head && c in s.open)
  {
    var opening := Openings(s, Ready(s));
    LogSent(s.out, opening, c);
    LogSent(Sent(s.out, opening), ToAll(s.head * s.open, [HeadOnly]), c);
    assert Log(s.out, c) + [] == Log(s.out, c);
  }

  lemma LoginLogReads(log: seq<Item>, partial: bool, packets: seq<(Packet, Time)>, waits: bool, asks: bool)
    ensures var after := LoginLogOf(log, partial, packets, waits, asks);
            && log <= after && |after| == |log| + (if waits then 1 + |packets| else 0) + (if asks then 1 else 0)
            && (waits ==> after[|log|] == StreamHead(partial) && Streams(after) == Streams(log) + [Payloads(packets)])
            && (!waits ==> Streams(after) == Streams(log))
            && (asks ==> after[|after| - 1] == HeadOnly)
  {
    if waits {
      StreamsOpened(log, partial, packets);
    }
    if asks {
      StreamsStep(LoginLogOf(log, partial, packets, waits, false), HeadOnly);
    }
  }

  /** After a login that fails those who waited or were served are told why, nobody else is sent
      anything, and all has stopped. */
  ghost predicate RefusedSeen(s: Session, t: Session, unauthorized: bool) {
    && t.state == Disconnected && Places(t) && t.packets == [] && t.received == s.received && t.idle == None
    && t.open == (if s.state == Disconnected then s.open else s.open - s.head - s.switching)
    && forall c :: Log(t.out, c) == Log(s.out, c) +
         if c in s.waiting || c in s.stream
         then [Reply(if unauthorized then HTTP_UNAUTHORIZED else HTTP_SERVICE_UNAVAILABLE)] else []
  }

  lemma RefusedShows(s: Session, unauthorized: bool)
    requires Inv(s)
    ensures RefusedSeen(s, LoginFailed(s, unauthorized), unauthorized)
  {
    var reply := Reply(if unauthorized then HTTP_UNAUTHORIZED else HTTP_SERVICE_UNAVAILABLE);
    forall c
      ensures Log(LoginFailed(s, unauthorized).out, c) == Log(s.out, c) + if c in s.waiting || c in s.stream then [reply] else []
    {
      RefusalSentTo(s.out, s.waiting.Keys, s.stream, reply, c);
    }
  }

  lemma RefusalSentTo(out: map<Conn, seq<Item>>, first: set<Conn>, second: set<Conn>, reply: Item, c: Conn)
    requires first !! second
    ensures Log(Sent(Sent(out, ToAll(first, [reply])), ToAll(second, [reply])), c) ==
            Log(out, c) + if c in first || c in second then [reply] else []
  {
    var mid := Sent(out, ToAll(first, [reply]));
    LogSent(out, ToAll(first, [reply]), c);
    LogSent(mid, ToAll(second, [reply]), c);
    assert Log(mid, c) + [] == Log(mid, c);
  }

  /** A packet while the session is connected: it is sent to those who are served and open, who alone
      stay served; those who wait for a switch are answered; without anybody to serve, the session
      stops once six seconds have passed since the first such packet. */
  ghost predicate PacketSeen(s: Session, t: Session, p: Packet, now: Time) {
    && t.received == s.received + [p] && t.switching == {}
    && (s.vod && t.state == Connected ==> t.packets == s.packets)
    && (forall c :: Log(t.out, c) == Log(s.out, c) + (if c in s.switching then [Reply(HTTP_OK)] else [])
                                     + if c in s.stream && c in s.open then [Media(p)] else [])
    && if s.stream != {} then t.state == Connected && t.stream == s.stream * s.open && t.idle == None && t.open == s.open
       else if s.idle.None? then t.state == Connected && t.stream == {} && t.idle == Some(now) && t.open == s.open
       else if Passed(s.idle.value, now) then t.state == Disconnected && Places(t) && t.packets == []
       else t.state == Connected && t.stream == {} && t.idle == s.idle && t.open == s.open
  }

  ghost predicate MediaSeen(s: Session, t: Session, p: Packet, now: Time) {
    match s.state
    case Disconnected => t == s
    case Connecting => StopSeen(s, t)
    case Connected => PacketSeen(s, t, p, now)
  }

  lemma MediaShows(s: Session, p: Packet, now: Time)
    requires Inv(s)
    ensures MediaSeen(s, Received(s, p, now), p, now)
  {
    if s.state == Connected {
      var t := Received(s, p, now);
      forall c ensures Log(t.out, c) == Log(s.out, c) + (if c in s.switching then [Reply(HTTP_OK)] else [])
                                        + if c in s.stream && c in s.open then [Media(p)] else []
      {
        MediaSentTo(s, p, now, c);
      }
    } else {
      StopShows(s);
    }
  }

  lemma MediaSentTo(s: Session, p: Packet, now: Time, c: Conn)
    requires s.state == Connected
    ensures Log(Received(s, p, now).out, c) ==
      Log(s.out, c) + (if c in s.switching then [Reply(HTTP_OK)] else []) + if c in s.stream && c in s.open then [Media(p)] else []
  {
    var t := Accepted(s, p, now);
    LogSent(s.out, ToAll(s.switching, [Reply(HTTP_OK)]), c);
    LogSent(t.out, ToAll(t.stream * t.open, [Media(p)]), c);
    assert Log(t.out, c) + [] == Log(t.out, c);
  }

  /** At the end of the media all who are served are closed; nothing is sent and no other notices. */
  ghost predicate EndSeen(s: Session, t: Session) {
    && t.stream == {} && t.open == s.open - s.stream && t.out == s.out
    && t.waiting == s.waiting && t.head == s.head
    && SameSession(s, t.(open := s.open))
  }

  // ------------------------------------------------------------------------ the processor

  lemma SentNothing(out: map<Conn, seq<Item>>, what: map<Conn, seq<Item>>)
    requires what == map[]
    ensures Sent(out, what) == out
  {
    assert forall c :: c in out ==> out[c] + [] == out[c];
  }

  /** Two sends one after the other, to different connections. */
  lemma SentTwice(out: map<Conn, seq<Item>>, a: map<Conn, seq<Item>>, b: map<Conn, seq<Item>>)
    requires a.Keys !! b.Keys
    ensures Sent(Sent(out, a), b) == Sent(out, a + b)
  {
    var l, r := Sent(Sent(out, a), b), Sent(out, a + b);
    assert l.Keys == r.Keys;
    forall c | c in l.Keys ensures l[c] == r[c] {
      LogTwice(Log(out, c), Log(a, c), Log(b, c), Log(a + b, c));
    }
  }

  lemma LogTwice(log: seq<Item>, a: seq<Item>, b: seq<Item>, both: seq<Item>)
    requires both == a + b
    ensures log + a + b == log + both
  {
  }

  /** Two sends one after the other, to the same connection. */
  lemma SentMore(out: map<Conn, seq<Item>>, c: Conn, xs: seq<Item>, ys: seq<Item>)
    ensures SentTo(SentTo(out, c, xs), c, ys) == SentTo(out, c, xs + ys)
  {
    var l, r := SentTo(SentTo(out, c, xs), c, ys), SentTo(out, c, xs + ys);
    assert l.Keys == r.Keys;
    forall d | d in l.Keys ensures l[d] == r[d] {
      LogTwice(Log(out, d), Log(map[c := xs], d), Log(map[c := ys], d), Log(map[c := xs + ys], d));
    }
  }

  /** What is left open when some connections are closed. */
  method CloseAll(open: set<Conn>, conns: set<Conn>) returns (left: set<Conn>)
    ensures left == open - conns
  {
    var todo := conns;
    left := open;
    while todo != {}
      invariant todo <= conns && left == open - (conns - todo)
      decreases |todo|
    {
      var c :| c in todo;
      left := left - {c};
      todo := todo - {c};
    }
  }

  /** Sends some connections the same item. */
  method SendAll(out: map<Conn, seq<Item>>, conns: set<Conn>, x: Item) returns (log: map<Conn, seq<Item>>)
    ensures log == Sent(out, ToAll(conns, [x]))
  {
    var todo, done := conns, {};
    log := out;
    SentNothing(out, ToAll({}, [x]));
    while todo != {}
      invariant done + todo == conns && done !! todo
      invariant log == Sent(out, ToAll(done, [x]))
      decreases |todo|
    {
      var c :| c in todo;
      SentOneMore(out, done, c, x);
      log := Sent(log, map[c := [x]]);
      todo, done := todo - {c}, done + {c};
    }
    assert done == conns;
  }

  lemma SentOneMore(out: map<Conn, seq<Item>>, done: set<Conn>, c: Conn, x: Item)
    requires c !in done
    ensures Sent(Sent(out, ToAll(done, [x])), map[c := [x]]) == Sent(out, ToAll(done + {c}, [x]))
  {
    SentTwice(out, ToAll(done, [x]), map[c := [x]]);
    assert ToAll(done, [x]) + map[c := [x]] == ToAll(done + {c}, [x]);
  }

  /** The header of a stream and the first `n` packets of the window. */
  ghost function Begun(first: Item, packets: seq<(Packet, Time)>, n: nat): seq<Item>
    requires n <= |packets|
  {
    [first] + Replay(packets)[..n]
  }

  lemma BegunStep(out: map<Conn, seq<Item>>, c: Conn, first: Item, packets: seq<(Packet, Time)>, n: nat)
    requires n < |packets|
    ensures SentTo(SentTo(out, c, Begun(first, packets, n)), c, [Media(packets[n].0)])
            == SentTo(out, c, Begun(first, packets, n + 1))
  {
    SentMore(out, c, Begun(first, packets, n), [Media(packets[n].0)]);
    assert Begun(first, packets, n) + [Media(packets[n].0)] == Begun(first, packets, n + 1);
  }

  /** Sends the header of a stream and the window. */
  method SendOpening(out: map<Conn, seq<Item>>, c: Conn, first: Item, packets: seq<(Packet, Time)>)
    returns (log: map<Conn, seq<Item>>)
    ensures log == Sent(out, map[c := [first] + Replay(packets)])
  {
    log := SentTo(out, c, [first]);
    assert Begun(first, packets, 0) == [first];
    for i := 0 to |packets|
      invariant log == SentTo(out, c, Begun(first, packets, i))
    {
      BegunStep(out, c, first, packets, i);
      log := SentTo(log, c, [Media(packets[i].0)]);
    }
    assert Begun(first, packets, |packets|) == [first] + Replay(packets);
  }

  ghost predicate OpeningsOf(s: Session, what: map<Conn, seq<Item>>) {
    forall c :: c in what ==> c in s.waiting && what[c] == Opening(s, s.waiting[c])
  }

  /** What the answer to a stream request depends on. */
  ghost predicate SameStream(s: Session, waiting: map<Conn, bool>, vod: bool, offset: int, packets: seq<(Packet, Time)>) {
    s.waiting == waiting && s.vod == vod && s.offset == offset && s.packets == packets
  }

  /** Answers the stream request of one more connection. */
  method SendNext(ghost s: Session, ghost out: map<Conn, seq<Item>>, ghost what: map<Conn, seq<Item>>,
                  log: map<Conn, seq<Item>>, waiting: map<Conn, bool>, c: Conn,
                  vod: bool, offset: int, packets: seq<(Packet, Time)>)
    returns (log': map<Conn, seq<Item>>, ghost what': map<Conn, seq<Item>>)
    requires SameStream(s, waiting, vod, offset, packets)
    requires OpeningsOf(s, what) && log == Sent(out, what) && c in waiting && c !in what
    ensures OpeningsOf(s, what') && log' == Sent(out, what') && what'.Keys == what.Keys + {c}
  {
    ghost var opening := Opening(s, waiting[c]);
    SentTwice(out, what, map[c := opening]);
    log' := SendOpening(log, c, StreamHead(vod && (waiting[c] || offset > 0)), packets);
    what' := what + map[c := opening];
  }

  /** Answers the stream requests of some of the connections that wait. */
  method SendEach(ghost s: Session, out: map<Conn, seq<Item>>, waiting: map<Conn, bool>, conns: set<Conn>,
                  vod: bool, offset: int, packets: seq<(Packet, Time)>)
    returns (log: map<Conn, seq<Item>>, ghost what: map<Conn, seq<Item>>)
    requires SameStream(s, waiting, vod, offset, packets) && conns <= waiting.Keys
    ensures OpeningsOf(s, what) && what.Keys == conns && log == Sent(out, what)
    decreases |conns|
  {
    if conns == {} {
      log, what := out, map[];
      SentNothing(out, what);
      return;
    }
    var c :| c in conns;
    var rest := conns - {c};
    log, what := SendEach(s, out, waiting, rest, vod, offset, packets);
    log, what := SendNext(s, out, what, log, waiting, c, vod, offset, packets);
    assert rest + {c} == conns;
  }

  lemma AllOpenings(s: Session, what: map<Conn, seq<Item>>)
    requires what.Keys == s.waiting.Keys * s.open && OpeningsOf(s, what)
    ensures what == Openings(s, Ready(s)) && what.Keys == Ready(s).Keys
  {
  }

  class Processor {
    var state: State
    var link: string
    var vod: bool
    var offset: int
    var head: set<Conn>
    var switching: set<Conn>
    var stream: set<Conn>
    var waiting: map<Conn, bool>
    var idle: Option<Time>
    var packets: seq<(Packet, Time)>
    var open: set<Conn>
    var out: map<Conn, seq<Item>>
    ghost var received: seq<Packet>
    ghost var times: seq<Time>
    ghost var since: nat

    ghost function View(): Session
      reads this
    {
      Session(state, link, vod, offset, head, switching, stream, waiting, idle, packets, open, out, received,
              times, since)
    }

    ghost predicate Valid()
      reads this
    {
      Inv(View())
    }

    constructor (open: set<Conn>)
      ensures Valid() && View() == Unused(open)
    {
      state, link, vod, offset := Disconnected, "", false, 0;
      head, switching, stream, waiting := {}, {}, {}, map[];
      idle, packets := None, [];
      this.open, out, received, times, since := open, map[], [], [], 0;
      new;
      assert View() == Unused(open);
      UnusedKeeps(open);
    }

    method StopChannel()
      modifies this`state, this`link, this`open, this`head, this`switching, this`stream, this`waiting, this`idle, this`packets
      ensures View() == Stopped(old(View()))
    {
      if state != Disconnected {
        CloseSockets();
        state, link, idle, packets := Disconnected, "", None, [];
      }
    }

    /** Closes and forgets all connections. */
    method CloseSockets()
      modifies this`open, this`head, this`switching, this`stream, this`waiting
      ensures View() == Closed(old(View()))
    {
      var left := CloseAll(open, head);
      left := CloseAll(left, switching);
      left := CloseAll(left, stream);
      left := CloseAll(left, waiting.Keys);
      open, head, switching, stream, waiting := left, {}, {}, {}, map[];
    }

    /** `response_stream_socket`. */
    method ResponseStream(c: Conn, range: bool)
      modifies this`out, this`stream
      ensures c !in open ==> out == old(out) && stream == old(stream)
      ensures c in open ==> out == Sent(old(out), Openings(old(View()), map[c := range])) && stream == old(stream) + {c}
    {
      if c in open {
        ghost var s := View();
        out := SendOpening(out, c, StreamHead(vod && (range || offset > 0)), packets);
        assert Openings(s, map[c := range]) == map[c := Opening(s, range)];
        stream := stream + {c};
      }
    }

    /** `register_stream_cmd_socket`: a request waits while the login is under way; once connected it
        is answered at once, a stream with the window, and nobody else is sent anything. */
    method Register(sock: Option<Conn>, range: bool, headOnly: bool)
      requires Valid()
      modifies this`out, this`stream, this`head, this`waiting
      ensures Valid() && RegisterSeen(old(View()), View(), sock, range, headOnly)
      ensures View() == Registered(old(View()), sock, range, headOnly)
    {
      RegisterKeeps(View(), sock, range, headOnly);
      RegisterShows(View(), sock, range, headOnly);
      Enter(sock, range, headOnly);
    }

    method Enter(sock: Option<Conn>, range: bool, headOnly: bool)
      modifies this`out, this`stream, this`head, this`waiting
      ensures View() == Registered(old(View()), sock, range, headOnly)
    {
      if sock.None? {
        return;
      }
      var c := sock.value;
      match state {
        case Disconnected => out := SendAll(out, {c}, Reply(HTTP_BAD_REQUEST));
        case Connecting =>
          if headOnly {
            head := head + {c};
          } else if c !in waiting {
            waiting := waiting[c := range];
          }
        case Connected =>
          if !headOnly {
            ResponseStream(c, range);
          } else if c in open {
            out := SendAll(out, {c}, HeadOnly);
          }
      }
    }

    /** `on_login_success`. */
    method OnLoginSuccess()
      requires Valid()
      modifies this`state, this`out, this`stream, this`waiting, this`head, this`since
      ensures Valid() && LoginSeen(old(View()), View())
      ensures View() == LoggedIn(old(View()))
    {
      LoginKeeps(View());
      LoginShows(View());
      Connect();
    }

    /** Answers the requests that wait. */
    method Answers() returns (log: map<Conn, seq<Item>>, served: set<Conn>)
      ensures log == Responses(View()) && served == stream + waiting.Keys * open
    {
      ghost var what;
      log, what := SendEach(View(), out, waiting, waiting.Keys * open, vod, offset, packets);
      AllOpenings(View(), what);
      log := SendAll(log, head * open, HeadOnly);
      served := stream + waiting.Keys * open;
    }

    method Connect()
      modifies this`state, this`out, this`stream, this`waiting, this`head, this`since
      ensures View() == LoggedIn(old(View()))
    {
      if state != Connected {
        var log, served := Answers();
        SetConnected(log, served);
      }
    }

    method SetConnected(log: map<Conn, seq<Item>>, served: set<Conn>)
      modifies this`state, this`out, this`stream, this`waiting, this`head, this`since
      ensures View() == old(View()).(state := Connected, out := log, stream := served, waiting := map[], head := {},
                                     since := |received|)
    {
      state, out, stream, waiting, head, since := Connected, log, served, map[], {}, |received|;
    }

    /** `on_login_failed`. */
    method OnLoginFailed(unauthorized: bool)
      requires Valid()
      modifies this
      ensures Valid() && RefusedSeen(old(View()), View(), unauthorized)
      ensures View() == LoginFailed(old(View()), unauthorized)
    {
      LoginFailedKeeps(View(), unauthorized);
      RefusedShows(View(), unauthorized);
      Refuse(unauthorized);
    }

    method Refuse(unauthorized: bool)
      modifies this
      ensures View() == LoginFailed(old(View()), unauthorized)
    {
      var reply := Reply(if unauthorized then HTTP_UNAUTHORIZED else HTTP_SERVICE_UNAVAILABLE);
      var log := SendAll(out, waiting.Keys, reply);
      log := SendAll(log, stream, reply);
      ghost var told := View().(out := log, waiting := map[], stream := {}, idle := None);
      out, waiting, stream, idle := log, map[], {}, None;
      assert View() == told;
      StopChannel();
    }

    /** `on_disconnected`: the connection is neither served nor waited for, and no other notices. */
    method OnDisconnected(c: Conn)
      requires Valid()
      modifies this`waiting, this`stream, this`head
      ensures Valid() && ForgetSeen(old(View()), View(), c)
      ensures View() == Forgotten(old(View()), c)
    {
      EventKeeps(View(), Disconnection(c));
      waiting, stream, head := waiting - {c}, stream - {c}, head - {c};
    }

    /** A connection is closed by its peer. */
    method OnClosed(c: Conn)
      requires Valid()
      modifies this`open
      ensures Valid() && View() == old(View()).(open := old(open) - {c})
    {
      EventKeeps(View(), Lost(c));
      open := open - {c};
    }

    /** `stop_channel`, as it is called from outside: all are closed, unanswered. */
    method Halt()
      requires Valid()
      modifies this
      ensures Valid() && StopSeen(old(View()), View())
      ensures View() == Stopped(old(View()))
    {
      StopKeeps(View());
      StopShows(View());
      StopChannel();
    }

    /** The part of `on_recvd_media` that does not depend on who is served. */
    method Accept(p: Packet, now: Time)
      modifies this`packets, this`out, this`switching, this`received, this`times
      ensures View() == Accepted(old(View()), p, now)
    {
      if !vod {
        Extend(p, now);
      }
      out := SendAll(out, switching, Reply(HTTP_OK));
      switching := {};
      received, times := received + [p], times + [now];
    }

    /** The window with one more packet, without those that are too old by then. */
    method Extend(p: Packet, now: Time)
      modifies this`packets
      ensures packets == Trimmed(old(packets) + [(p, now)], now)
    {
      packets := packets + [(p, now)];
      Trim(now);
    }

    /** `on_recvd_media`. */
    method OnRecvdMedia(p: Packet, now: Time)
      requires Valid()
      modifies this
      ensures Valid() && MediaSeen(old(View()), View(), p, now)
      ensures View() == Received(old(View()), p, now)
    {
      ReceiveKeeps(View(), p, now);
      MediaShows(View(), p, now);
      if state == Connected {
        Accept(p, now);
        Deliver(p, now);
      } else {
        StopChannel();
      }
    }

    /** Sends a packet on, or counts the time that nobody is served. */
    method Deliver(p: Packet, now: Time)
      modifies this
      ensures View() == Delivered(old(View()), p, now)
    {
      if stream == {} {
        if idle.None? {
          idle := Some(now);
        } else if Passed(idle.value, now) {
          StopChannel();
        }
      } else {
        idle := None;
        out := SendAll(out, stream * open, Media(p));
        stream := stream * open;
      }
    }

    /** `on_media_end`. */
    method OnMediaEnd()
      requires Valid()
      modifies this`open, this`stream
      ensures Valid() && EndSeen(old(View()), View())
      ensures View() == Ended(old(View()))
    {
      EventKeeps(View(), MediaEnd);
      open := CloseAll(open, stream);
      stream := {};
    }

    /** The branch of `process` for a request to play a channel. */
    method Process(link: string, vod: bool, offset: int, sock: Option<Conn>, range: bool, headOnly: bool)
      requires Valid()
      modifies this
      ensures Valid() && PlaySeen(old(View()), View(), link, vod, offset, sock, range, headOnly)
      ensures View() == Played(old(View()), link, vod, offset, sock, range, headOnly)
    {
      PlayKeeps(View(), link, vod, offset, sock, range, headOnly);
      PlayShows(View(), link, vod, offset, sock, range, headOnly);
      Switch(link, vod, offset);
      Enter(sock, range, headOnly);
    }

    /** Makes the session one of a channel. */
    method Switch(link: string, vod: bool, offset: int)
      modifies this
      ensures View() == Channel(old(View()), link, vod, offset)
    {
      if this.link != link {
        StopChannel();
      }
      if state == Disconnected {
        state, this.link, this.vod, this.offset := Connecting, link, vod, offset;
      } else if vod {
        this.offset := offset;
      }
    }

    /** The branch of `process` for `stop_chan`. */
    method ProcessStop(link: string, c: Conn)
      requires Valid()
      modifies this
      ensures Valid() && StopCommandSeen(old(View()), View(), link, c)
      ensures View() == StopAsked(old(View()), link, c)
    {
      StopCommandKeeps(View(), link, c);
      StopCommandShows(View(), link, c);
      if link == this.link {
        StopChannel();
        out := SendAll(out, {c}, Reply(HTTP_OK));
      }
    }

    /** The branch of `process` for `switch_chan`. */
    method ProcessSwitch(c: Conn, link: string, vod: bool, offset: int)
      requires Valid()
      modifies this
      ensures Valid() && SwitchSeen(old(View()), View(), c, link)
      ensures View() == SwitchAsked(old(View()), c, link, vod, offset)
    {
      SwitchKeeps(View(), c, link, vod, offset);
      SwitchShows(View(), c, link, vod, offset);
      AsideKeeps(View(), switching, Reply(HTTP_REQUEST_TIMEOUT));
      out := SendAll(out, switching, Reply(HTTP_REQUEST_TIMEOUT));
      switching := {c};
      Process(link, vod, offset, None, false, false);
    }

    /** The branch of `process` for `range`. */
    method ProcessRange(link: string, c: Conn)
      requires Valid()
      modifies this`out, this`stream, this`head, this`waiting
      ensures Valid() && RangeSeen(old(View()), View(), link, c)
      ensures View() == RangeAsked(old(View()), link, c)
    {
      if link == this.link {
        Register(Some(c), false, true);
      } else {
        AsideKeeps(View(), {c}, Reply(HTTP_NOT_FOUND));
        RangeShows(View(), link, c);
        out := SendAll(out, {c}, Reply(HTTP_NOT_FOUND));
      }
    }

    /** The packet loop of `on_recvd_media` that keeps the window. */
    method Trim(now: Time)
      requires packets != [] && packets[|packets| - 1].1 == now
      modifies this`packets
      ensures packets == Trimmed(old(packets), now)
    {
      RecentIs(packets, now, 0);
      ghost var k := 0;
      while Passed(packets[0].1, now)
        invariant k <= |old(packets)| && packets == old(packets)[k..]
        invariant Recent(old(packets), now, k) == Recent(old(packets), now, 0) < |old(packets)|
        decreases |packets|
      {
        packets := packets[1..];
        k := k + 1;
      }
    }
  }

  /** `process`: one request. */
  method Command(m: Processor, e: Event)
    requires m.Valid() && (e.Play? || e.StopCommand? || e.SwitchCommand? || e.RangeCommand?)
    modifies m
    ensures m.Valid() && m.View() == Apply(old(m.View()), e)
  {
    match e {
      case Play(link, vod, offset, sock, range, headOnly) => m.Process(link, vod, offset, sock, range, headOnly);
      case StopCommand(link, c) => m.ProcessStop(link, c);
      case SwitchCommand(c, link, vod, offset) => m.ProcessSwitch(c, link, vod, offset);
      case RangeCommand(link, c) => m.ProcessRange(link, c);
    }
  }

  /** One event. */
  method Handle(m: Processor, e: Event)
    requires m.Valid()
    modifies m
    ensures m.Valid() && m.View() == Apply(old(m.View()), e)
  {
    match e {
      case Play(_, _, _, _, _, _) => Command(m, e);
      case StopCommand(_, _) => Command(m, e);
      case SwitchCommand(_, _, _, _) => Command(m, e);
      case RangeCommand(_, _) => Command(m, e);
      case LoginSucceeded => m.OnLoginSuccess();
      case LoginRefused(unauthorized) => m.OnLoginFailed(unauthorized);
      case MediaPacket(p, now) => m.OnRecvdMedia(p, now);
      case MediaEnd => m.OnMediaEnd();
      case Lost(c) => m.OnClosed(c);
      case Disconnection(c) => m.OnDisconnected(c);
      case Stop => m.Halt();
    }
  }

  /** A session in which some events happen ends as the run says, with the invariant. */
  method Execute(open: set<Conn>, events: seq<Event>) returns (m: Processor)
    ensures m.Valid() && m.View() == Run(open, events)
  {
    m := new Processor(open);
    for i := 0 to |events|
      invariant fresh(m) && m.Valid() && m.View() == RunTo(open, events, i)
    {
      Handle(m, events[i]);
    }
  }
}
