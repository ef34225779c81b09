/**
  The online menu of `src/menu/online.rs`: a lobby ID editor that accepts at most four ASCII
  digits, the Lobby Match button that is enabled only by a complete ID, and the dispatch of
  button presses.
 */
module OnlineMenu {
  import opened Common
  import opened Ui

  /** The length of a complete lobby ID. */
  const LOBBY_ID_LEN: nat := 4

  /** The lobby used by Quick Match: the matchbox server pairs the next two players. */
  const QUICK_MATCH_LOBBY: string := "bevy?next=2"

  /** The prefix every lobby name gets. */
  const LOBBY_PREFIX: string := "bevy"

  datatype OnlineBtn = LobbyMatch | QuickMatch | Back

  predicate IsAsciiDigit(c: char) {
    '0' <= c <= '9'
  }

  /** What the editor can hold: at most four ASCII digits. */
  predicate ValidLobbyId(id: string) {
    |id| <= LOBBY_ID_LEN && forall i :: 0 <= i < |id| ==> IsAsciiDigit(id[i])
  }

  /** Whether one typed character is appended. */
  predicate Accepts(id: string, c: char) {
    |id| < LOBBY_ID_LEN && IsAsciiDigit(c)
  }

  /** The loop over this frame's character events, in event order. */
  function TypeChars(id: string, chars: seq<char>): (r: string)
    ensures ValidLobbyId(id) ==> ValidLobbyId(r)
    ensures |id| <= |r| && r[..|id|] == id
    decreases |chars|
  {
    if |chars| == 0 then id
    else TypeChars(if Accepts(id, chars[0]) then id + [chars[0]] else id, chars[1..])
  }

  /** Backspace drops the last character; on an empty ID it does nothing. */
  function Backspace(id: string): (r: string)
    ensures |id| == 0 ==> r == id
    ensures |id| > 0 ==> r + [id[|id| - 1]] == id
  {
    if |id| == 0 then id else id[..|id| - 1]
  }

  /** `update_lobby_id`: the typed characters first, then backspace if it was just pressed. */
  function UpdateLobbyId(id: string, chars: seq<char>, backspace: bool): (r: string)
    ensures ValidLobbyId(id) ==> ValidLobbyId(r)
    ensures |id| <= LOBBY_ID_LEN ==>
              var typed := id + Take(Digits(chars), LOBBY_ID_LEN - |id|);
              r == if backspace then Backspace(typed) else typed
  {
    var typed := TypeChars(id, chars);
    var r := if backspace then Backspace(typed) else typed;
    if |id| <= LOBBY_ID_LEN then TypeCharsKeepsLeadingDigits(id, chars); r else r
  }

  /** The digits among `chars`, in order. */
  function Digits(chars: seq<char>): (r: string)
    ensures forall i :: 0 <= i < |r| ==> IsAsciiDigit(r[i])
  {
    if |chars| == 0 then []
    else (if IsAsciiDigit(chars[0]) then [chars[0]] else []) + Digits(chars[1..])
  }

  /** The first n elements of s, or all of s when it is shorter. */
  function Take(s: string, n: nat): (r: string)
    ensures |r| == if n < |s| then n else |s|
  {
    if n < |s| then s[..n] else s
  }

  /** Typing appends the digits among the events, in order, until the ID is full; every other
      character is dropped. */
  lemma {:induction false} TypeCharsKeepsLeadingDigits(id: string, chars: seq<char>)
    requires |id| <= LOBBY_ID_LEN
    ensures TypeChars(id, chars) == id + Take(Digits(chars), LOBBY_ID_LEN - |id|)
    decreases |chars|
  {
    if |chars| > 0 {
      var c := chars[0];
      var next := if Accepts(id, c) then id + [c] else id;
      TypeCharsKeepsLeadingDigits(next, chars[1..]);
      var rest := Digits(chars[1..]);
      if IsAsciiDigit(c) {
        assert Digits(chars) == [c] + rest;
        if |id| < LOBBY_ID_LEN {
          TakeCons(c, rest, LOBBY_ID_LEN - |id|);
        } else {
          assert Take(rest, 0) == [];
          assert Take([c] + rest, 0) == [];
        }
      } else {
        assert Digits(chars) == rest;
      }
    }
  }

  lemma TakeCons(c: char, rest: string, n: nat)
    requires n > 0
    ensures Take([c] + rest, n) == [c] + Take(rest, n - 1)
  {
    if n - 1 < |rest| {
      assert ([c] + rest)[..n] == [c] + rest[..n - 1];
    }
  }

  /** A digit typed into a non-full ID and backspace in the same frame cancel out. */
  lemma TypeThenBackspace(id: string, c: char)
    requires |id| < LOBBY_ID_LEN && IsAsciiDigit(c)
    ensures UpdateLobbyId(id, [c], true) == id
  {
    assert [c][1..] == [];
    assert TypeChars(id, [c]) == id + [c];
    assert (id + [c])[..|id|] == id;
  }

  /** `update_lobby_btn`: the Lobby Match button is enabled iff the displayed ID has exactly
      four characters. */
  function LobbyButtonEnabled(displayed: string): (enabled: bool)
    ensures enabled <==> |displayed| == LOBBY_ID_LEN
  {
    |displayed| == LOBBY_ID_LEN
  }

  /** The `ButtonEnabled` component of each button: only Lobby Match carries one. */
  function EnabledComponent(btn: OnlineBtn, lobbyEnabled: bool): (e: Option<bool>)
    ensures e.Some? <==> btn == LobbyMatch
    ensures btn == LobbyMatch ==> e == Some(lobbyEnabled)
  {
    if btn == LobbyMatch then Some(lobbyEnabled) else None
  }

  /** A button without `ButtonEnabled` is always clickable. */
  predicate Clickable(enabled: Option<bool>) {
    match enabled
    case None => true
    case Some(e) => e
  }

  /** `btn_visuals`: a disabled button shows the disabled colour whatever the interaction. */
  function OnlineButtonColor(i: Interaction, enabled: Option<bool>): (c: ButtonColor)
    ensures !Clickable(enabled) ==> c == DisabledButton
    ensures Clickable(enabled) ==> c == InteractionColor(i)
  {
    if Clickable(enabled) then InteractionColor(i) else DisabledButton
  }

  /** What a press on the online menu asks for. */
  datatype OnlineAction = Stay | ToConnect(lobby: string) | ToMain

  /** `btn_listeners`: a press on a clickable button. Lobby Match connects to the typed lobby,
      Quick Match to the pairing lobby, Back returns to the main menu. */
  function OnlinePress(btn: OnlineBtn, i: Interaction, enabled: Option<bool>, lobbyId: string): (a: OnlineAction)
    ensures (i != Pressed || !Clickable(enabled)) <==> a == Stay
    ensures a.ToConnect? ==> |LOBBY_PREFIX| <= |a.lobby| && a.lobby[..|LOBBY_PREFIX|] == LOBBY_PREFIX
    ensures a.ToConnect? && btn == LobbyMatch ==> a.lobby[|LOBBY_PREFIX|..] == lobbyId
    ensures a.ToConnect? && btn == QuickMatch ==> a.lobby == QUICK_MATCH_LOBBY
    ensures a == ToMain <==> btn == Back && i == Pressed && Clickable(enabled)
  {
    if !Clickable(enabled) || i != Pressed then Stay
    else match btn
      case LobbyMatch => ToConnect(LOBBY_PREFIX + lobbyId)
      case QuickMatch => ToConnect(QUICK_MATCH_LOBBY)
      case Back => ToMain
  }

  /** With the button state refreshed from the displayed ID, pressing Lobby Match connects
      exactly when the ID is complete, and then to a lobby named by eight characters. */
  lemma LobbyMatchNeedsCompleteId(id: string)
    requires ValidLobbyId(id)
    ensures var a := OnlinePress(LobbyMatch, Pressed, EnabledComponent(LobbyMatch, LobbyButtonEnabled(id)), id);
            (a.ToConnect? <==> |id| == LOBBY_ID_LEN) && (a.ToConnect? ==> |a.lobby| == 8)
  {
  }

  /** Quick Match and Back never carry `ButtonEnabled`, so they react to a press whatever the
      lobby ID. */
  lemma OtherButtonsAlwaysClickable(btn: OnlineBtn, lobbyEnabled: bool, id: string)
    requires btn != LobbyMatch
    ensures OnlinePress(btn, Pressed, EnabledComponent(btn, lobbyEnabled), id) != Stay
  {
  }
}
