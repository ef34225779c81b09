/**
  The main menu of `src/menu/main.rs`: Online Match, Local Match (which first builds the
  sync-test session) and Quit.
 */
module MainMenu {
  import opened Config
  import opened Ui
  import opened ConnectMenu

  datatype MainBtn = OnlineMatch | LocalMatch | Quit

  /** The numbers 0..n-1, in order. */
  function Range(n: nat): (r: seq<nat>)
    ensures |r| == n
    ensures forall i :: 0 <= i < n ==> r[i] == i
  {
    seq(n, i requires 0 <= i < n => i)
  }

  /** `create_synctest_session`: a sync-test session that registers all `NUM_PLAYERS` players
      as local under handles 0..N-1, and those same handles as the local handles. */
  function CreateSynctestSession(): (r: (Session, seq<nat>))
    ensures r.0.kind == SyncTest(CHECK_DISTANCE) && r.0.numPlayers == NUM_PLAYERS
    ensures r.0.maxPrediction == MAX_PREDICTION && r.0.fps == FPS && r.0.inputDelay == INPUT_DELAY
    ensures |r.0.players| == NUM_PLAYERS
    ensures forall i :: 0 <= i < NUM_PLAYERS ==> r.0.players[i] == Registration(Local, i)
    ensures r.1 == Range(NUM_PLAYERS)
  {
    var players := seq(NUM_PLAYERS, i requires 0 <= i < NUM_PLAYERS => Local);
    (Session(SyncTest(CHECK_DISTANCE), NUM_PLAYERS, MAX_PREDICTION, FPS, INPUT_DELAY, Registrations(players)),
     Range(NUM_PLAYERS))
  }

  /** The sync-test handles are what the network derivation would give for an all-local
      player list: both paths agree on how handles are derived. */
  lemma {:induction false} SynctestHandlesAreLocalIndices(n: nat)
    ensures LocalIndices(seq(n, i requires 0 <= i < n => Local)) == Range(n)
  {
    if n > 0 {
      var all := seq(n, i requires 0 <= i < n => Local);
      assert all[..n - 1] == seq(n - 1, i requires 0 <= i < n - 1 => Local);
      SynctestHandlesAreLocalIndices(n - 1);
      assert Range(n) == Range(n - 1) + [n - 1];
    }
  }

  /** What a press on the main menu asks for. */
  datatype MainAction = Stay | ExitApp | ToOnline | ToLocal(session: Session, handles: seq<nat>)

  /** `btn_listeners`: only a press acts. Online goes to the online menu, Local builds the
      sync-test session and then goes to the local round, Quit sends `AppExit` and stays. */
  function MainPress(btn: MainBtn, i: Interaction): (a: MainAction)
    ensures i != Pressed <==> a == Stay
    ensures a == ExitApp <==> i == Pressed && btn == Quit
    ensures a == ToOnline <==> i == Pressed && btn == OnlineMatch
    ensures a.ToLocal? <==> i == Pressed && btn == LocalMatch
    ensures a.ToLocal? ==> (a.session, a.handles) == CreateSynctestSession()
  {
    if i != Pressed then Stay
    else match btn
      case OnlineMatch => ToOnline
      case LocalMatch => var (s, h) := CreateSynctestSession(); ToLocal(s, h)
      case Quit => ExitApp
  }
}
