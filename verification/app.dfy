/**
  The application state machine: the `AppState` of `src/main.rs` together with the resources
  the screens create and remove, the enter and exit hooks of each state, and one transition
  function over (application, event). A state change runs the exit hook of the old state and
  then the enter hook of the new one, as a Bevy state transition does.
 */
module App {
  import opened Common
  import opened Config
  import opened Ui
  import opened Round
  import opened Schedule
  import opened OnlineMenu
  import opened ConnectMenu
  import opened MainMenu

  /** The online screen's UI: the lobby ID text and the Lobby Match `ButtonEnabled` flag. */
  datatype OnlineUi = OnlineUi(text: string, lobbyEnabled: bool)

  /** The application: its state and every resource the core creates or removes. */
  datatype App = App(
    state: AppState,
    lobbyId: Option<string>,
    onlineUi: Option<OnlineUi>,
    connectData: Option<string>,
    socket: SocketSlot,
    session: Option<Session>,
    localHandles: Option<seq<nat>>,
    round: Option<RoundState>,
    matchData: Option<string>,
    winText: Option<string>,
    exitRequested: bool)

  /** The inputs the state machine reacts to. Button events are changes of a button's
      interaction. `SocketPoll` carries the socket's player list after it accepted new
      connections. `RoundOver` stands for the round-end decision, which is not part of this
      model: it brings the result text. */
  datatype Event =
    | AssetsLoaded
    | MainButton(mainBtn: MainBtn, interaction: Interaction)
    | LobbyKeys(chars: seq<char>, backspace: bool)
    | LobbyDisplay
    | LobbyButton
    | OnlineButton(onlineBtn: OnlineBtn, interaction: Interaction)
    | SocketPoll(players: seq<PlayerType>)
    | ConnectButton(interaction: Interaction)
    | RoundOver(result: string)
    | WinButton(interaction: Interaction)

  function Initial(): App {
    App(AssetLoading, None, None, None, Absent, None, None, None, None, None, false)
  }

  /** The exit hooks: the online UI is despawned, the socket resource removed, the round torn
      down (`cleanup_round`: frame counter, session and every player), the result UI despawned.
      Nothing else changes. */
  function OnExit(app: App): (r: App)
    ensures r.state == app.state && r.lobbyId == app.lobbyId && r.connectData == app.connectData
    ensures r.localHandles == app.localHandles && r.matchData == app.matchData
    ensures r.exitRequested == app.exitRequested
    ensures app.state == MenuOnline ==> r.onlineUi == None
    ensures app.state == MenuConnect ==> r.socket == Absent
    ensures app.state.IsRound() ==> r.round == None && r.session == None
    ensures app.state == Win ==> r.winText == None
    ensures app.state != MenuOnline ==> r.onlineUi == app.onlineUi
    ensures app.state != MenuConnect ==> r.socket == app.socket
    ensures !app.state.IsRound() ==> r.round == app.round && r.session == app.session
    ensures app.state != Win ==> r.winText == app.winText
  {
    match app.state
    case MenuOnline => app.(onlineUi := None)
    case MenuConnect => app.(socket := Absent)
    case RoundLocal => app.(round := None, session := None)
    case RoundOnline => app.(round := None, session := None)
    case Win => app.(winText := None)
    case _ => app
  }

  /** The enter hooks of the state `app` is now in: the online screen starts with an empty
      lobby ID and a disabled Lobby Match button; the connect screen opens the socket for the
      `ConnectData` lobby and removes `ConnectData`; a round starts its frame counter at 0
      and spawns its players; the result screen shows `MatchData` and removes it. */
  function OnEnter(app: App, spawnAt: nat -> (real, real)): (r: App)
    ensures r.state == app.state && r.exitRequested == app.exitRequested
    ensures r.session == app.session && r.localHandles == app.localHandles
    ensures app.state == MenuOnline ==> r.lobbyId == Some("") && r.onlineUi == Some(OnlineUi("", false))
    ensures app.state == MenuConnect && app.connectData.Some? ==>
              r.socket == Held(CreateMatchboxSocket(app.connectData.value)) && r.connectData == None
    ensures app.state.IsRound() ==>
              r.round == Some(RoundState(SetupRound(), SpawnPlayers(spawnAt)))
    ensures app.state == Win ==> r.winText == app.matchData && r.matchData == None
    ensures app.state != MenuOnline ==> r.lobbyId == app.lobbyId && r.onlineUi == app.onlineUi
    ensures app.state != MenuConnect || app.connectData.None? ==>
              r.socket == app.socket && r.connectData == app.connectData
    ensures !app.state.IsRound() ==> r.round == app.round
    ensures app.state != Win ==> r.winText == app.winText && r.matchData == app.matchData
  {
    match app.state
    case MenuOnline => app.(lobbyId := Some(""), onlineUi := Some(OnlineUi("", false)))
    case MenuConnect =>
      (match app.connectData
       case Some(lobby) => app.(socket := Held(CreateMatchboxSocket(lobby)), connectData := None)
       case None => app)
    case RoundLocal => app.(round := Some(RoundState(SetupRound(), SpawnPlayers(spawnAt))))
    case RoundOnline => app.(round := Some(RoundState(SetupRound(), SpawnPlayers(spawnAt))))
    case Win => app.(winText := app.matchData, matchData := None)
    case _ => app
  }

  /** A state change: the old state's exit hooks, then the new state's enter hooks. The
      resources the old state owned are gone unless the new state recreates them; the new
      state's resources are set up; the rest is kept. */
  function GoTo(app: App, next: AppState, spawnAt: nat -> (real, real)): (r: App)
    ensures r.state == next
    ensures r.exitRequested == app.exitRequested && r.localHandles == app.localHandles
    ensures r.session == if app.state.IsRound() then None else app.session
    ensures next.IsRound() ==> r.round == Some(RoundState(SetupRound(), SpawnPlayers(spawnAt)))
    ensures !next.IsRound() ==> r.round == if app.state.IsRound() then None else app.round
    ensures next == MenuOnline ==> r.lobbyId == Some("") && r.onlineUi == Some(OnlineUi("", false))
    ensures next != MenuOnline ==> r.lobbyId == app.lobbyId
    ensures next != MenuOnline ==> r.onlineUi == if app.state == MenuOnline then None else app.onlineUi
    ensures next == MenuConnect && app.connectData.Some? ==>
              r.socket == Held(CreateMatchboxSocket(app.connectData.value)) && r.connectData == None
    ensures next != MenuConnect || app.connectData.None? ==>
              r.socket == (if app.state == MenuConnect then Absent else app.socket)
              && r.connectData == app.connectData
    ensures next == Win ==> r.winText == app.matchData && r.matchData == None
    ensures next != Win ==> r.matchData == app.matchData
    ensures next != Win ==> r.winText == if app.state == Win then None else app.winText
  {
    OnEnter(OnExit(app).(state := next), spawnAt)
  }

  /** The state changes the menus and rounds can make. */
  predicate CanMove(from: AppState, to: AppState) {
    match from
    case AssetLoading => to == MenuMain
    case MenuMain => to == MenuOnline || to == RoundLocal
    case MenuOnline => to == MenuConnect || to == MenuMain
    case MenuConnect => to == RoundOnline || to == MenuMain
    case RoundLocal => to == Win
    case RoundOnline => to == Win
    case Win => to == MenuMain
  }

  /** One event. Each screen's systems run only in that screen's state; an event for another
      state changes nothing. */
  function Step(app: App, ev: Event, spawnAt: nat -> (real, real)): (r: App)
    ensures r.state == app.state || CanMove(app.state, r.state)
  {
    match ev
    case AssetsLoaded =>
      if app.state == AssetLoading then GoTo(app, MenuMain, spawnAt) else app
    case MainButton(btn, i) =>
      if app.state != MenuMain then app
      else (match MainPress(btn, i)
        case Stay => app
        case ExitApp => app.(exitRequested := true)
        case ToOnline => GoTo(app, MenuOnline, spawnAt)
        case ToLocal(sess, handles) =>
          GoTo(app.(session := Some(sess), localHandles := Some(handles)), RoundLocal, spawnAt))
    case LobbyKeys(chars, backspace) =>
      if app.state != MenuOnline || app.lobbyId.None? then app
      else app.(lobbyId := Some(UpdateLobbyId(app.lobbyId.value, chars, backspace)))
    case LobbyDisplay =>
      if app.state != MenuOnline || app.lobbyId.None? || app.onlineUi.None? then app
      else app.(onlineUi := Some(app.onlineUi.value.(text := app.lobbyId.value)))
    case LobbyButton =>
      if app.state != MenuOnline || app.onlineUi.None? then app
      else
        var ui := app.onlineUi.value;
        app.(onlineUi := Some(ui.(lobbyEnabled := LobbyButtonEnabled(ui.text))))
    case OnlineButton(btn, i) =>
      if app.state != MenuOnline || app.lobbyId.None? || app.onlineUi.None? then app
      else (match OnlinePress(btn, i, EnabledComponent(btn, app.onlineUi.value.lobbyEnabled), app.lobbyId.value)
        case Stay => app
        case ToConnect(lobby) => GoTo(app.(connectData := Some(lobby)), MenuConnect, spawnAt)
        case ToMain => GoTo(app, MenuMain, spawnAt))
    case SocketPoll(players) =>
      if app.state != MenuConnect then app
      else
        var poll := UpdateMatchboxSocket(app.socket, players);
        (match poll.started
         case Some(started) =>
           GoTo(app.(socket := poll.slot, session := Some(started.0), localHandles := Some(started.1)),
                RoundOnline, spawnAt)
         case None => app.(socket := poll.slot))
    case ConnectButton(i) =>
      if app.state == MenuConnect && BackPress(i).Some? then GoTo(app, MenuMain, spawnAt) else app
    case RoundOver(result) =>
      if app.state.IsRound() then GoTo(app.(matchData := Some(result)), Win, spawnAt) else app
    case WinButton(i) =>
      if app.state == Win && BackPress(i).Some? then GoTo(app, MenuMain, spawnAt) else app
  }

  /** The resource invariant: a round's frame counter, players and session exist exactly in the
      round states; the socket exactly on the connect screen; the online UI exactly on the
      online screen; the result text exactly on the result screen; `ConnectData` and
      `MatchData` never outlive the transition that uses them; the lobby ID is always at most
      four digits; a round has one player per handle; a local round runs a sync-test session
      with every handle local, an online round a P2P session. */
  ghost predicate Valid(app: App) {
    && (app.state.IsRound() <==> app.round.Some?)
    && (app.state.IsRound() <==> app.session.Some?)
    && (app.state == MenuConnect <==> app.socket.Held?)
    && !app.socket.Taken?
    && (app.state == MenuOnline <==> app.onlineUi.Some?)
    && (app.state == Win <==> app.winText.Some?)
    && app.connectData.None? && app.matchData.None?
    && (app.lobbyId.Some? ==> ValidLobbyId(app.lobbyId.value))
    && (app.state == MenuOnline ==> app.lobbyId.Some? && ValidLobbyId(app.onlineUi.value.text))
    && (app.round.Some? ==> |app.round.value.actors| == NUM_PLAYERS && HandlesAreSlots(app.round.value.actors))
    && (app.state == RoundLocal ==>
          app.session.value.kind == SyncTest(CHECK_DISTANCE) && app.localHandles == Some(Range(NUM_PLAYERS)))
    && (app.state == RoundOnline ==>
          app.session.value.kind == P2P && app.localHandles == Some(LocalIndices(PlayersOf(app.session.value))))
  }

  /** The player types a session registered, in handle order. */
  function PlayersOf(s: Session): (r: seq<PlayerType>)
    ensures |r| == |s.players|
    ensures forall i :: 0 <= i < |r| ==> r[i] == s.players[i].player
  {
    seq(|s.players|, i requires 0 <= i < |s.players| => s.players[i].player)
  }

  lemma InitialValid()
    ensures Valid(Initial())
  {
  }

  /** Every event keeps the resource invariant. */
  lemma StepPreservesValid(app: App, ev: Event, spawnAt: nat -> (real, real))
    requires Valid(app)
    ensures Valid(Step(app, ev, spawnAt))
  {
    match ev
    case OnlineButton(btn, i) => OnlineButtonValid(app, btn, i, spawnAt);
    case SocketPoll(players) => SocketPollValid(app, players, spawnAt);
    case MainButton(btn, i) => MainButtonValid(app, btn, i, spawnAt);
    case _ => OtherEventValid(app, ev, spawnAt);
  }

  lemma MainButtonValid(app: App, btn: MainBtn, i: Interaction, spawnAt: nat -> (real, real))
    requires Valid(app)
    ensures Valid(Step(app, MainButton(btn, i), spawnAt))
  {
  }

  lemma OnlineButtonValid(app: App, btn: OnlineBtn, i: Interaction, spawnAt: nat -> (real, real))
    requires Valid(app)
    ensures Valid(Step(app, OnlineButton(btn, i), spawnAt))
  {
    if app.state == MenuOnline {
      var a := OnlinePress(btn, i, EnabledComponent(btn, app.onlineUi.value.lobbyEnabled), app.lobbyId.value);
      if a.ToConnect? {
        assert Step(app, OnlineButton(btn, i), spawnAt)
            == GoTo(app.(connectData := Some(a.lobby)), MenuConnect, spawnAt);
      }
    }
  }

  lemma SocketPollValid(app: App, players: seq<PlayerType>, spawnAt: nat -> (real, real))
    requires Valid(app)
    ensures Valid(Step(app, SocketPoll(players), spawnAt))
  {
    if app.state == MenuConnect {
      var poll := UpdateMatchboxSocket(app.socket, players);
      if poll.started.Some? {
        var (sess, handles) := CreateGgrsSession(players);
        assert PlayersOf(sess) == players;
      }
    }
  }

  lemma OtherEventValid(app: App, ev: Event, spawnAt: nat -> (real, real))
    requires Valid(app)
    requires !ev.MainButton? && !ev.OnlineButton? && !ev.SocketPoll?
    ensures Valid(Step(app, ev, spawnAt))
  {
  }

  /** The loading screen hands over to the main menu once the assets are in. */
  lemma AssetsOpenMainMenu(app: App, spawnAt: nat -> (real, real))
    requires app.state == AssetLoading
    ensures Step(app, AssetsLoaded, spawnAt) == app.(state := MenuMain)
  {
  }

  /** Online Match opens the online screen with an empty lobby ID and Lobby Match disabled. */
  lemma OnlineMatchOpensOnlineMenu(app: App, spawnAt: nat -> (real, real))
    requires app.state == MenuMain
    ensures Step(app, MainButton(OnlineMatch, Pressed), spawnAt)
         == app.(state := MenuOnline, lobbyId := Some(""), onlineUi := Some(OnlineUi("", false)))
  {
  }

  /** Quick Match closes the online screen and opens the connect screen with a socket for the
      room `MATCHBOX_ADDR/bevy?next=2`. */
  lemma QuickMatchOpensRoom(app: App, spawnAt: nat -> (real, real))
    requires Valid(app) && app.state == MenuOnline
    ensures Step(app, OnlineButton(QuickMatch, Pressed), spawnAt)
         == app.(state := MenuConnect, onlineUi := None,
                 socket := Held(Socket(RoomUrl(QUICK_MATCH_LOBBY), [])))
  {
  }

  /** Back on the online screen closes it and returns to the main menu. */
  lemma OnlineBackToMain(app: App, spawnAt: nat -> (real, real))
    requires Valid(app) && app.state == MenuOnline
    ensures Step(app, OnlineButton(Back, Pressed), spawnAt) == app.(state := MenuMain, onlineUi := None)
  {
  }

  /** A poll that finds at least NUM_PLAYERS players takes the socket into a P2P session and
      starts the online round: the session registers every player, the local handles are the
      local players' indices, and the frame counter and players are set up. `Valid` gives
      the held socket on the connect screen. */
  lemma PollStartsRound(app: App, players: seq<PlayerType>, spawnAt: nat -> (real, real))
    requires app.state == MenuConnect && app.socket.Held? && |players| >= NUM_PLAYERS
    ensures var r := Step(app, SocketPoll(players), spawnAt);
            && r.state == RoundOnline
            && r.session == Some(CreateGgrsSession(players).0)
            && r.localHandles == Some(LocalIndices(players))
            && r.socket == Absent
            && r.round == Some(RoundState(SetupRound(), SpawnPlayers(spawnAt)))
  {
    assert UpdateMatchboxSocket(app.socket, players).started == Some(CreateGgrsSession(players));
  }

  /** A poll that finds fewer players keeps waiting on the connect screen and only records
      who has joined. */
  lemma PollKeepsWaiting(app: App, players: seq<PlayerType>, spawnAt: nat -> (real, real))
    requires Valid(app) && app.state == MenuConnect && |players| < NUM_PLAYERS
    ensures Step(app, SocketPoll(players), spawnAt)
         == app.(socket := Held(app.socket.socket.(players := players)))
  {
  }

  /** Back on the connect screen drops the socket and returns to the main menu. */
  lemma ConnectBackToMain(app: App, spawnAt: nat -> (real, real))
    requires Valid(app) && app.state == MenuConnect
    ensures Step(app, ConnectButton(Pressed), spawnAt) == app.(state := MenuMain, socket := Absent)
  {
  }

  /** The end of a round tears it down and shows the result text on the result screen. */
  lemma RoundOverShowsResult(app: App, result: string, spawnAt: nat -> (real, real))
    requires Valid(app) && app.state.IsRound()
    ensures Step(app, RoundOver(result), spawnAt)
         == app.(state := Win, round := None, session := None, winText := Some(result))
  {
  }

  /** Back on the result screen removes the result text and returns to the main menu. */
  lemma WinBackToMain(app: App, spawnAt: nat -> (real, real))
    requires Valid(app) && app.state == Win
    ensures Step(app, WinButton(Pressed), spawnAt) == app.(state := MenuMain, winText := None)
  {
  }

  /** Scenario: waiting on a lobby that never fills, then pressing Back, returns to the main
      menu with no socket, no session, no round and no frame counter left. */
  lemma AbortWhileConnecting(app: App, players: seq<PlayerType>, spawnAt: nat -> (real, real))
    requires Valid(app) && app.state == MenuConnect && |players| < NUM_PLAYERS
    ensures var waiting := Step(app, SocketPoll(players), spawnAt);
            && waiting.state == MenuConnect
            && var back := Step(waiting, ConnectButton(Pressed), spawnAt);
            && back.state == MenuMain && back.socket == Absent
            && back.session == None && back.round == None
  {
  }

  /** Scenario: Local Match from the main menu starts a local round with a sync-test session
      for every player, local handles 0..N-1, the frame counter at 0 and N players at rest. */
  lemma LocalMatchStartsRound(app: App, spawnAt: nat -> (real, real))
    requires Valid(app) && app.state == MenuMain
    ensures var r := Step(app, MainButton(LocalMatch, Pressed), spawnAt);
            && r.state == RoundLocal
            && r.session == Some(CreateSynctestSession().0)
            && r.localHandles == Some(Range(NUM_PLAYERS))
            && r.round.Some? && r.round.value.frameCount.frame == 0
            && |r.round.value.actors| == NUM_PLAYERS
  {
  }

  /** Scenario: a complete lobby ID, shown and enabling the button, leads a Lobby Match press
      to the connect screen with a socket for room `MATCHBOX_ADDR/bevy<id>`. */
  lemma LobbyMatchOpensRoom(app: App, spawnAt: nat -> (real, real))
    requires Valid(app) && app.state == MenuOnline && |app.lobbyId.value| == LOBBY_ID_LEN
    ensures var shown := Step(app, LobbyDisplay, spawnAt);
            var enabled := Step(shown, LobbyButton, spawnAt);
            var r := Step(enabled, OnlineButton(LobbyMatch, Pressed), spawnAt);
            && r.state == MenuConnect
            && r.socket == Held(Socket(RoomUrl(LOBBY_PREFIX + app.lobbyId.value), []))
  {
  }

  /** Only presses act: hovering or leaving a button never changes the application. */
  lemma OnlyPressesAct(app: App, ev: Event, spawnAt: nat -> (real, real))
    requires ev.MainButton? || ev.OnlineButton? || ev.ConnectButton? || ev.WinButton?
    requires ev.interaction != Pressed
    ensures Step(app, ev, spawnAt) == app
  {
  }

  /** Quit only requests the exit: the state and every resource stay as they are. */
  lemma QuitKeepsState(app: App, spawnAt: nat -> (real, real))
    requires app.state == MenuMain
    ensures Step(app, MainButton(Quit, Pressed), spawnAt) == app.(exitRequested := true)
  {
  }
}
