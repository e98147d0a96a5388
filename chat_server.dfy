/** The room-scoped chat relay of the Express + Socket.IO server. Each connection keeps
    the `username` and `room` of its last `join` and the set of rooms it belongs to;
    every `emit` is recorded with the set of connections it reaches. Socket.IO itself is
    abstract: `socket.join(r)` adds `r` to the connection's rooms and never removes one,
    `socket.to(r)` reaches the members of `r` other than the sender, `io.to(r)` all
    members of `r`, and a closing connection leaves every room before its `disconnect`
    handler runs. */
module ChatServer {
  import opened Wrappers

  type ConnId = string
  type Room = string

  const DefaultRoom: Room := "global"
  const DefaultName: string := "Anon"

  /** `socket.data` (None while never set) and the connection's rooms. */
  datatype ConnData = ConnData(username: Option<string>, room: Option<Room>, rooms: set<Room>)

  /** What a `chat-message` emit carries: a plain text, or the `{username, text, ts}`
      payload of a relayed message. */
  datatype Event =
    | Notice(text: string)
    | Chat(username: string, text: string, ts: int)

  /** One `emit` and the connections it is delivered to. */
  datatype Emission = Emission(to: set<ConnId>, event: Event)

  /** JavaScript's `v || fallback` on a value that is a string or undefined: the empty
      string falls back as well. */
  function OrElse(v: Option<string>, fallback: string): (r: string)
    ensures v.Some? && v.value != "" ==> r == v.value
    ensures v.None? || v.value == "" ==> r == fallback
    ensures r == "" ==> fallback == ""
  {
    if v.Some? && v.value != "" then v.value else fallback
  }

  /** The room a connection's messages and departure notice go to. */
  function ScopeOf(d: ConnData): (r: Room)
    ensures r != ""
    ensures d.room.Some? && d.room.value != "" ==> r == d.room.value
    ensures d.room.None? || d.room.value == "" ==> r == DefaultRoom
  {
    OrElse(d.room, DefaultRoom)
  }

  /** The name a connection's messages and departure notice carry. */
  function NameOf(d: ConnData): (r: string)
    ensures r != ""
    ensures d.username.Some? && d.username.value != "" ==> r == d.username.value
    ensures d.username.None? || d.username.value == "" ==> r == DefaultName
  {
    OrElse(d.username, DefaultName)
  }

  /** The arrival notice: the name first, the room last, then a period. */
  function ArrivalText(username: string, room: Room): (r: string)
    ensures |r| == |username| + |room| + 17
    ensures r[..|username|] == username && r[|r| - |room| - 1..] == room + "."
    ensures r[|username|..|username| + 16] == " entrou na sala "
  {
    username + " entrou na sala " + room + "."
  }

  /** The welcome: a fixed greeting, then the name, and the room last. */
  function WelcomeText(username: string, room: Room): (r: string)
    ensures |r| == |username| + |room| + 22
    ensures r[..14] == "Bem-vindo(a), " && r[14..14 + |username|] == username
    ensures r[14 + |username|..22 + |username|] == "! Sala: "
    ensures r[|r| - |room|..] == room
  {
    "Bem-vindo(a), " + username + "! Sala: " + room
  }

  /** The departure notice: the name first, the room last, then a period. */
  function DepartureText(username: string, room: Room): (r: string)
    ensures |r| == |username| + |room| + 15
    ensures r[..|username|] == username && r[|r| - |room| - 1..] == room + "."
    ensures r[|username|..|username| + 14] == " saiu da sala "
  {
    username + " saiu da sala " + room + "."
  }

  /** The connections that belong to room `r`. */
  function Members(conns: map<ConnId, ConnData>, r: Room): (m: set<ConnId>)
    ensures forall c :: c in m <==> c in conns && r in conns[c].rooms
  {
    set c | c in conns && r in conns[c].rooms
  }

  /** The events delivered to connection `c`, in the order they were emitted. */
  function Inbox(out: seq<Emission>, c: ConnId): seq<Event>
  {
    if out == [] then []
    else Inbox(out[..|out| - 1], c) + (if c in out[|out| - 1].to then [out[|out| - 1].event] else [])
  }

  /** Removing a connection removes it, and only it, from every room. */
  lemma MembersWithout(conns: map<ConnId, ConnData>, c: ConnId, r: Room)
    ensures Members(conns - {c}, r) == Members(conns, r) - {c}
  {
  }

  lemma InboxSnoc(out: seq<Emission>, e: Emission, c: ConnId)
    ensures Inbox(out + [e], c) == Inbox(out, c) + (if c in e.to then [e.event] else [])
  {
  }

  /** What the relay keeps true of every connection: it belongs to the room named by
      its own id (Socket.IO's private room), and to the room of its last join. */
  ghost predicate Registered(conns: map<ConnId, ConnData>)
  {
    forall c :: c in conns ==>
      c in conns[c].rooms && (conns[c].room.Some? ==> conns[c].room.value in conns[c].rooms)
  }

  /** A connection that has joined a non-empty room is a member of the room its own
      messages go to, so it sees them echoed back. */
  lemma JoinedSenderIsEchoed(conns: map<ConnId, ConnData>, c: ConnId)
    requires Registered(conns) && c in conns
    requires conns[c].room.Some? && conns[c].room.value != ""
    ensures c in Members(conns, ScopeOf(conns[c]))
  {
  }

  /** A connection whose stored room is missing or empty addresses `'global'`, and is
      echoed only if it has itself joined `'global'`. */
  lemma UnjoinedSenderScope(conns: map<ConnId, ConnData>, c: ConnId)
    requires c in conns && (conns[c].room.None? || conns[c].room.value == "")
    ensures ScopeOf(conns[c]) == DefaultRoom
    ensures c in Members(conns, ScopeOf(conns[c])) <==> DefaultRoom in conns[c].rooms
  {
  }

  class Relay {
    var conns: map<ConnId, ConnData>
    /** Every emit so far, in order. */
    var outbox: seq<Emission>

    ghost predicate Valid()
      reads this
    {
      Registered(conns)
    }

    constructor ()
      ensures Valid() && conns == map[] && outbox == []
    {
      conns := map[];
      outbox := [];
    }

    /** `io.on('connection')`: a new socket with empty `data`, in its private room. */
    method Connect(c: ConnId)
      requires Valid() && c !in conns
      modifies this
      ensures Valid()
      ensures conns == old(conns)[c := ConnData(None, None, {c})]
      ensures outbox == old(outbox)
    {
      conns := conns[c := ConnData(None, None, {c})];
    }

    /** The `join` handler. An absent field takes its default, an empty string is kept
        as given. The connection joins the room in addition to those it is in, its
        `username` and `room` are overwritten, the arrival notice goes to the other
        members of the room and then the welcome to the joiner alone. */
    method Join(c: ConnId, room: Option<Room>, username: Option<string>)
      requires Valid() && c in conns
      modifies this
      ensures Valid()
      ensures var r, u := room.GetOr(DefaultRoom), username.GetOr(DefaultName);
        && conns == old(conns)[c := ConnData(Some(u), Some(r), old(conns)[c].rooms + {r})]
        && outbox == old(outbox) + [Emission(Members(old(conns), r) - {c}, Notice(ArrivalText(u, r))),
                                    Emission({c}, Notice(WelcomeText(u, r)))]
      // The next two follow from the first; they spell out, for the reader, that no
      // room is left and that no other connection changes.
      ensures old(conns)[c].rooms <= conns[c].rooms
      ensures forall d :: d in old(conns) && d != c ==> conns[d] == old(conns)[d]
      ensures var r, u := room.GetOr(DefaultRoom), username.GetOr(DefaultName);
        forall d :: (Inbox(outbox, d) ==
                       Inbox(old(outbox), d)
                       + (if d != c && d in old(conns) && r in old(conns)[d].rooms
                          then [Notice(ArrivalText(u, r))] else [])
                       + (if d == c then [Notice(WelcomeText(u, r))] else []))
    {
      var r := room.GetOr(DefaultRoom);
      var u := username.GetOr(DefaultName);
      var d := conns[c];
      conns := conns[c := d.(rooms := d.rooms + {r})];
      conns := conns[c := conns[c].(username := Some(u), room := Some(r))];
      var arrivalTo := Members(conns, r) - {c};
      assert arrivalTo == Members(old(conns), r) - {c};
      var e1 := Emission(arrivalTo, Notice(ArrivalText(u, r)));
      var e2 := Emission({c}, Notice(WelcomeText(u, r)));
      forall d ensures Inbox(outbox + [e1, e2], d) ==
                       Inbox(outbox, d) + (if d in e1.to then [e1.event] else []) + (if d in e2.to then [e2.event] else []) {
        InboxSnoc(outbox, e1, d);
        assert outbox + [e1, e2] == (outbox + [e1]) + [e2];
        InboxSnoc(outbox + [e1], e2, d);
      }
      outbox := outbox + [e1, e2];
    }

    /** The `chat-message` handler: `{username, text, ts}` built from the stored fields,
        with `'Anon'` and `'global'` for missing or empty ones, is delivered to every
        member of that room, the sender included when it is one, and to nobody else. */
    method ChatMessage(c: ConnId, msg: string, now: int)
      requires Valid() && c in conns
      modifies this
      ensures Valid() && conns == old(conns)
      ensures outbox == old(outbox) + [Emission(Members(conns, ScopeOf(conns[c])),
                                                Chat(NameOf(conns[c]), msg, now))]
      ensures forall d :: (Inbox(outbox, d) ==
                             Inbox(old(outbox), d) + if d in conns && ScopeOf(conns[c]) in conns[d].rooms
                                                     then [Chat(NameOf(conns[c]), msg, now)] else [])
    {
      var username := OrElse(conns[c].username, DefaultName);
      var room := OrElse(conns[c].room, DefaultRoom);
      var payload := Chat(username, msg, now);
      var e := Emission(Members(conns, room), payload);
      forall d ensures Inbox(outbox + [e], d) == Inbox(outbox, d) + (if d in e.to then [e.event] else []) {
        InboxSnoc(outbox, e, d);
      }
      outbox := outbox + [e];
    }

    /** The `disconnect` handler. The connection has already left every room; one
        departure notice, naming its stored username and room, goes to the remaining
        members of that room. */
    method Disconnect(c: ConnId)
      requires Valid() && c in conns
      modifies this
      ensures Valid()
      ensures conns == old(conns) - {c}
      ensures var d := old(conns)[c];
        outbox == old(outbox) + [Emission(Members(old(conns), ScopeOf(d)) - {c},
                                          Notice(DepartureText(NameOf(d), ScopeOf(d))))]
      ensures var d := old(conns)[c];
        forall x :: (Inbox(outbox, x) ==
                       Inbox(old(outbox), x)
                       + if x != c && x in old(conns) && ScopeOf(d) in old(conns)[x].rooms
                         then [Notice(DepartureText(NameOf(d), ScopeOf(d)))] else [])
    {
      var d := conns[c];
      conns := conns - {c};
      var username := OrElse(d.username, DefaultName);
      var room := OrElse(d.room, DefaultRoom);
      var departureTo := Members(conns, room);
      MembersWithout(old(conns), c, room);
      var notice := Notice(DepartureText(username, room));
      var e := Emission(departureTo, notice);
      forall x ensures Inbox(outbox + [e], x) ==
                       Inbox(outbox, x)
                       + if x != c && x in old(conns) && room in old(conns)[x].rooms then [notice] else [] {
        InboxSnoc(outbox, e, x);
      }
      outbox := outbox + [e];
    }
  }

  // ---------------------------------------------------------------------------
  // Client runs of the relay

  /** Two connections in one room: a message reaches both, the sender included. */
  method SameRoom(now: int) returns (toA: seq<Event>, toB: seq<Event>)
    ensures toA == [Notice(WelcomeText("Alice", "lobby")), Notice(ArrivalText("Bob", "lobby")),
                    Chat("Alice", "hi", now)]
    ensures toB == [Notice(WelcomeText("Bob", "lobby")), Chat("Alice", "hi", now)]
  {
    var relay := new Relay();
    relay.Connect("A");
    relay.Connect("B");
    relay.Join("A", Some("lobby"), Some("Alice"));
    relay.Join("B", Some("lobby"), Some("Bob"));
    relay.ChatMessage("A", "hi", now);
    toA := Inbox(relay.outbox, "A");
    toB := Inbox(relay.outbox, "B");
  }

  /** Connections in different rooms do not hear each other. */
  method OtherRoom(now: int) returns (toB: seq<Event>)
    ensures toB == [Notice(WelcomeText("Bob", "kitchen"))]
  {
    var relay := new Relay();
    relay.Connect("A");
    relay.Connect("B");
    relay.Join("A", Some("lobby"), Some("Alice"));
    relay.Join("B", Some("kitchen"), Some("Bob"));
    relay.ChatMessage("A", "hi", now);
    toB := Inbox(relay.outbox, "B");
  }

  /** A connection that never joins sends as `'Anon'` to `'global'`; as it never
      joined `'global'` itself, nobody, not even the sender, receives the message. */
  method NeverJoined(now: int) returns (toA: seq<Event>, toB: seq<Event>, sent: Emission)
    ensures sent == Emission({}, Chat("Anon", "yo", now))
    ensures toA == [Notice(WelcomeText("Alice", "lobby"))]
    ensures toB == []
  {
    var relay := new Relay();
    relay.Connect("A");
    relay.Connect("B");
    relay.Join("A", Some("lobby"), Some("Alice"));
    relay.ChatMessage("B", "yo", now);
    sent := relay.outbox[|relay.outbox| - 1];
    toA := Inbox(relay.outbox, "A");
    toB := Inbox(relay.outbox, "B");
  }

  /** The first half of `Departure`: Alice and Bob in "lobby", Carol connected. */
  method LobbyPair() returns (relay: Relay)
    ensures fresh(relay) && relay.Valid()
    ensures relay.conns.Keys == {"A", "B", "C"}
    ensures relay.conns["A"] == ConnData(Some("Alice"), Some("lobby"), {"A", "lobby"})
    ensures relay.conns["B"].rooms == {"B", "lobby"} && relay.conns["C"].rooms == {"C"}
    ensures Inbox(relay.outbox, "B") == [Notice(WelcomeText("Bob", "lobby"))]
    ensures Inbox(relay.outbox, "C") == []
  {
    relay := new Relay();
    relay.Connect("A");
    relay.Connect("B");
    relay.Connect("C");
    relay.Join("A", Some("lobby"), Some("Alice"));
    relay.Join("B", Some("lobby"), Some("Bob"));
  }

  /** When a member leaves, the others in its room receive one departure notice. */
  method Departure() returns (toB: seq<Event>, toC: seq<Event>)
    ensures toB == [Notice(WelcomeText("Bob", "lobby")), Notice(DepartureText("Alice", "lobby"))]
    ensures toC == [Notice(WelcomeText("Carol", "kitchen"))]
  {
    var relay := LobbyPair();
    relay.Join("C", Some("kitchen"), Some("Carol"));
    assert "lobby" !in relay.conns["C"].rooms && "kitchen" !in relay.conns["B"].rooms;
    relay.Disconnect("A");
    toB := Inbox(relay.outbox, "B");
    toC := Inbox(relay.outbox, "C");
  }

  /** After A has joined "lobby" as Alice and then "kitchen" with no name, while B has
      only connected. */
  ghost predicate MovedToKitchenState(relay: Relay)
    reads relay
  {
    && relay.Valid()
    && relay.conns.Keys == {"A", "B"}
    && relay.conns["A"] == ConnData(Some("Anon"), Some("kitchen"), {"A", "lobby", "kitchen"})
    && relay.conns["B"] == ConnData(None, None, {"B"})
    && Inbox(relay.outbox, "A") == [Notice(WelcomeText("Alice", "lobby")), Notice(WelcomeText("Anon", "kitchen"))]
    && Inbox(relay.outbox, "B") == []
  }

  /** The same, after B has then joined "lobby" as Bob. */
  ghost predicate BobInLobbyState(relay: Relay)
    reads relay
  {
    && relay.Valid()
    && relay.conns.Keys == {"A", "B"}
    && relay.conns["A"] == ConnData(Some("Anon"), Some("kitchen"), {"A", "lobby", "kitchen"})
    && relay.conns["B"] == ConnData(Some("Bob"), Some("lobby"), {"B", "lobby"})
    && Inbox(relay.outbox, "A") == [Notice(WelcomeText("Alice", "lobby")), Notice(WelcomeText("Anon", "kitchen")),
                                    Notice(ArrivalText("Bob", "lobby"))]
    && Inbox(relay.outbox, "B") == [Notice(WelcomeText("Bob", "lobby"))]
  }

  /** The first two joins of `LastJoinWins`. */
  method MovedToKitchen() returns (relay: Relay)
    ensures fresh(relay) && MovedToKitchenState(relay)
  {
    relay := new Relay();
    relay.Connect("A");
    relay.Connect("B");
    relay.Join("A", Some("lobby"), Some("Alice"));
    relay.Join("A", Some("kitchen"), None);
  }

  /** The third join of `LastJoinWins`: B joins "lobby", which A still belongs to. */
  method BobJoinsLobby(relay: Relay)
    requires MovedToKitchenState(relay)
    modifies relay
    ensures BobInLobbyState(relay)
  {
    relay.Join("B", Some("lobby"), Some("Bob"));
  }

  /** The messages of `LastJoinWins`: A, now in "kitchen" as Anon, says "hi"; B, in
      "lobby", says "yo". */
  method KitchenAndLobbyTalk(relay: Relay, now: int)
    requires BobInLobbyState(relay)
    modifies relay
    ensures Inbox(relay.outbox, "A") == [Notice(WelcomeText("Alice", "lobby")), Notice(WelcomeText("Anon", "kitchen")),
                                         Notice(ArrivalText("Bob", "lobby")), Chat("Anon", "hi", now), Chat("Bob", "yo", now)]
    ensures Inbox(relay.outbox, "B") == [Notice(WelcomeText("Bob", "lobby")), Chat("Bob", "yo", now)]
  {
    relay.ChatMessage("A", "hi", now);
    assert Inbox(relay.outbox, "B") == [Notice(WelcomeText("Bob", "lobby"))];
    relay.ChatMessage("B", "yo", now);
  }

  /** The last join decides where a connection's messages go and under which name: a
      join without a username resets it to `'Anon'`. The rooms of earlier joins are
      never left: A, moved to "kitchen", still hears "lobby". */
  method LastJoinWins(now: int) returns (toA: seq<Event>, toB: seq<Event>)
    ensures toA == [Notice(WelcomeText("Alice", "lobby")), Notice(WelcomeText("Anon", "kitchen")),
                    Notice(ArrivalText("Bob", "lobby")), Chat("Anon", "hi", now), Chat("Bob", "yo", now)]
    ensures toB == [Notice(WelcomeText("Bob", "lobby")), Chat("Bob", "yo", now)]
  {
    var relay := MovedToKitchen();
    BobJoinsLobby(relay);
    KitchenAndLobbyTalk(relay, now);
    toA := Inbox(relay.outbox, "A");
    toB := Inbox(relay.outbox, "B");
  }
}
