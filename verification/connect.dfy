/**
  The connect screen of `src/menu/connect.rs`: the matchbox room URL, the poll that takes the
  socket once enough players are present, and the GGRS session built from the socket's
  ordered player list. The socket itself is reduced to its room URL and that player list.
 */
module ConnectMenu {
  import opened Common
  import opened Config

  const MATCHBOX_ADDR: string := "wss://match.gschup.dev"

  /** A GGRS player as the socket reports it. */
  datatype PlayerType = Local | Remote(peer: nat)

  /** A matchbox socket: the room it joined and the players it currently sees, in order. */
  datatype Socket = Socket(roomUrl: string, players: seq<PlayerType>)

  /** The `Option<MatchboxSocket>` resource: absent, present but taken, or holding a socket. */
  datatype SocketSlot = Absent | Taken | Held(socket: Socket)

  /** A player added to a session builder, with the handle it was added under. */
  datatype Registration = Registration(player: PlayerType, handle: nat)

  /** The two GGRS session kinds the demo starts. */
  datatype SessionKind = P2P | SyncTest(checkDistance: nat)

  /** A started GGRS session, reduced to its builder settings and its players. */
  datatype Session = Session(
    kind: SessionKind,
    numPlayers: nat,
    maxPrediction: nat,
    fps: nat,
    inputDelay: nat,
    players: seq<Registration>)

  /** `format!("{MATCHBOX_ADDR}/{lobby_id}")`. */
  function RoomUrl(lobbyId: string): (url: string)
    ensures |url| == |MATCHBOX_ADDR| + 1 + |lobbyId|
    ensures url[..|MATCHBOX_ADDR|] == MATCHBOX_ADDR
    ensures url[|MATCHBOX_ADDR|] == '/'
    ensures url[|MATCHBOX_ADDR| + 1..] == lobbyId
  {
    MATCHBOX_ADDR + "/" + lobbyId
  }

  /** Different lobbies get different rooms. */
  lemma RoomUrlInjective(a: string, b: string)
    requires RoomUrl(a) == RoomUrl(b)
    ensures a == b
  {
    assert a == RoomUrl(a)[|MATCHBOX_ADDR| + 1..];
  }

  /** `create_matchbox_socket`: a socket for the lobby's room that sees no players yet. */
  function CreateMatchboxSocket(lobbyId: string): (s: Socket)
    ensures s.roomUrl == RoomUrl(lobbyId) && s.players == []
  {
    Socket(RoomUrl(lobbyId), [])
  }

  /** Reference definition of the local handles: the indices of the `Local` entries, in
      increasing order. */
  function LocalIndices(players: seq<PlayerType>): (r: seq<nat>)
    ensures forall k :: 0 <= k < |r| ==> r[k] < |players| && players[r[k]] == Local
    ensures forall i :: 0 <= i < |players| && players[i] == Local ==> i in r
    ensures forall j, k :: 0 <= j < k < |r| ==> r[j] < r[k]
  {
    if |players| == 0 then []
    else
      var n := |players| - 1;
      LocalIndices(players[..n]) + (if players[n] == Local then [n] else [])
  }

  /** The handle loop of `create_ggrs_session`: push i for every local player i. */
  method CollectLocalHandles(players: seq<PlayerType>) returns (handles: seq<nat>)
    ensures handles == LocalIndices(players)
  {
    handles := [];
    for i := 0 to |players|
      invariant handles == LocalIndices(players[..i])
    {
      assert players[..i + 1][..i] == players[..i];
      if players[i] == Local {
        handles := handles + [i];
      }
    }
    assert players[..|players|] == players;
  }

  /** Player i is added under handle i. */
  function Registrations(players: seq<PlayerType>): (r: seq<Registration>)
    ensures |r| == |players|
    ensures forall i :: 0 <= i < |r| ==> r[i].player == players[i] && r[i].handle == i
  {
    seq(|players|, i requires 0 <= i < |players| => Registration(players[i], i))
  }

  /** `create_ggrs_session`: a P2P session over every listed player, and the local handles. */
  function CreateGgrsSession(players: seq<PlayerType>): (r: (Session, seq<nat>))
    ensures r.0.kind == P2P && r.0.numPlayers == NUM_PLAYERS
    ensures r.0.maxPrediction == MAX_PREDICTION && r.0.fps == FPS && r.0.inputDelay == INPUT_DELAY
    ensures r.0.players == Registrations(players)
    ensures r.1 == LocalIndices(players)
  {
    (Session(P2P, NUM_PLAYERS, MAX_PREDICTION, FPS, INPUT_DELAY, Registrations(players)),
     LocalIndices(players))
  }

  /** The local handles are the handles of the local registrations. */
  lemma LocalHandlesAreLocalRegistrations(players: seq<PlayerType>, h: nat)
    ensures var (sess, handles) := CreateGgrsSession(players);
            h in handles <==> h < |sess.players| && sess.players[h].player == Local
  {
  }

  /** What a poll leaves behind: the socket resource, and the session when one was started. */
  datatype PollResult = PollResult(slot: SocketSlot, started: Option<(Session, seq<nat>)>)

  /** `update_matchbox_socket`. `accepted` is the player list the socket reports after
      `accept_new_connections`, which is network I/O. With a socket and at least
      `NUM_PLAYERS` players, the socket is taken and a session is started; otherwise
      nothing moves. */
  function UpdateMatchboxSocket(slot: SocketSlot, accepted: seq<PlayerType>): (r: PollResult)
    ensures r.started.Some? <==> slot.Held? && |accepted| >= NUM_PLAYERS
    ensures r.started.Some? ==> r.slot == Taken && r.started.value == CreateGgrsSession(accepted)
    ensures r.started.None? && slot.Held? ==> r.slot == Held(slot.socket.(players := accepted))
    ensures !slot.Held? ==> r.slot == slot
  {
    match slot
    case Held(socket) =>
      var socket := socket.(players := accepted);
      if |socket.players| >= NUM_PLAYERS then PollResult(Taken, Some(CreateGgrsSession(socket.players)))
      else PollResult(Held(socket), None)
    case _ => PollResult(slot, None)
  }
}
