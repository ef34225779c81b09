# bevy_ggrs_demo core, modelled in Dafny

This project models the deterministic core of the Bevy/GGRS rollback demo. It has three
parts.

- **State fingerprint.** The checksum each player entity carries is the Fletcher-16
  checksum of a fixed 20-byte record of its position and velocity. It is the mod-255 form of
  Fletcher's checksum, which agrees with the one's-complement form of RFC 1146,
  Appendix I, only modulo 255: the data [255] gives 0x0000 here and 0xFFFF there. The model has a recursive definition, a closed form,
  and the byte loop, proved equal.
- **Rollback frame.** The frame is composed in the order of the rollback schedule:
  1. the input byte each player sends;
  2. the per-axis velocity rule followed by the speed clamp;
  3. movement with the arena clamp;
  4. the frame counter;
  5. then, in a later stage, the checksum.

  Round set-up and teardown are part of this too.
- **Menus and sessions.** The screens are the main menu, the online menu, the connect
  screen and the result screen. The model has:
  - the four-digit lobby ID editor;
  - the Lobby Match enable flag;
  - the matchbox room URL;
  - the poll that takes the socket once enough players are present;
  - local-handle derivation for network and sync-test sessions;
  - one application state machine with each state's enter and exit hooks, and a resource
    invariant it keeps.

| file | module | models |
|---|---|---|
| `common.dfy` | `Common` | Rust `u8`/`u16`/`u32`, `Option` |
| `config.dfy` | `Config` | the constants and `AppState` of `src/main.rs` |
| `f32.dfy` | `Float` | the `f32` library operations the core calls |
| `fletcher.dfy` | `Fletcher` | `fletcher16` |
| `checksum.dfy` | `Checksum` | `checksum_players` |
| `round.dfy` | `Round` | `src/round.rs` |
| `schedule.dfy` | `Schedule` | the rollback schedule of `src/main.rs` |
| `ui.dfy` | `Ui` | button interaction, colours, and the Back button of the connect and result screens |
| `online.dfy` | `OnlineMenu` | `src/menu/online.rs` |
| `connect.dfy` | `ConnectMenu` | `src/menu/connect.rs` |
| `main_menu.dfy` | `MainMenu` | `src/menu/main.rs` |
| `app.dfy` | `App` | the application states, their hooks and events |

## Modelling decisions

### Number types

- `f32` values are `real`.
- `f32::sqrt` and `f32::to_le_bytes` are parameters, bundled in `Float.F32Ops`.
- Every use of `sqrt` requires `Float.SqrtExact`: the result is the non-negative root.
- `to_le_bytes` is any function that returns four bytes.
- Rust's `u8`, `u16` and `u32` are newtypes. Each arithmetic step in `fletcher16` is
  therefore checked against the `u16` range.
- The frame counter's `+= 1` wraps at 2^32, which is Rust's release-build behaviour.
- The input byte is a `bv8`, and the bit tests are bit-vector `&`.

### Source revisions

The source mixes two revisions of the same program.

- **State names.** The `AppState` enum in `src/main.rs:30-37` has the older state names
  (`Menu`, `Connect`, `LocalRound`, `OnlineRound`). The menu code in `src/menu/*.rs` uses
  `MenuMain`, `MenuOnline`, `MenuConnect`, `RoundLocal` and `RoundOnline`. The model uses
  the menu code's names.
- **Schedule wiring.** The hooks follow the wiring of `src/main.rs:120-142`: a round
  state's enter hook runs `setup_round` and `spawn_players`, and its exit hook runs
  `cleanup_round`. The menu screens' own hooks come from `src/menu/*.rs`: the online screen
  resets `LobbyID`, the connect screen opens the socket and `cleanup` removes it, and the
  result screen consumes `MatchData`.
- **Velocity step.** The schedule in `src/main.rs:79-85` names `apply_inputs` and
  `update_velocity`. `src/round.rs` has the single system `update_velocities`, which is
  modelled as the input and velocity step.
- **Velocity type.** `src/checksum.rs` reads `v.0.x`, while `src/round.rs` has a velocity
  with fields `x` and `y`. The model has a pair.
- **Interaction.** Bevy's `Interaction::Clicked` (older API, in the main and connect menus)
  and `Interaction::Pressed` (newer API, in the online and result menus) are one
  constructor, `Pressed`. `Interaction::None` is `Idle`.
- **Session resource.** `cleanup_round` removes `P2PSession` and `SessionType`, while the
  menus insert a `Session`. The model has one session slot, which the round's exit hook
  empties.

### The round

- **Velocity rule.** The model follows the code of `src/round.rs:122-158`.
  - Each velocity component is set to ±`MOVEMENT_SPEED` when exactly one of its two keys is
    held.
  - It is damped by `FRICTION` when neither key is held.
  - It is left unchanged when both are held.
  - Then the speed is clamped to `MAX_SPEED`.
  - There is no heading, steering, acceleration impulse or drift.
- **Arena bound.** The bound is `(PLANE_SIZE - CUBE_SIZE) / 2`, and `CUBE_SIZE` is 0.2,
  while the sprite is `PLAYER_SIZE` = 50 wide. A player pushed into a wall therefore stops
  with almost half of its sprite outside the plane. `Round.WallOverhang` states this; it is
  how the code behaves.
- **Spawn positions.** `spawn_players` places player h at `r·cos θ, r·sin θ` with
  r = PLANE_SIZE / 4. The position is a parameter `spawnAt`; the handle, the zero velocity
  and z = 0 are modelled. `Round.OnSpawnCircle` says that `spawnAt` puts every handle on the
  circle of that radius, which is all the spawn lemmas need.

### Lobby ID

Rust's `String::len` counts bytes (`src/menu/online.rs:178`, `src/menu/online.rs:204`),
while the model counts characters. The two agree because `update_lobby_id` pushes only
ASCII digits, which are one byte each.

### The result screen

The win condition, `check_win`, is referenced by the schedule but is not part of this
model. The end of a round is the event `App.RoundOver(result)`. It inserts `MatchData` with
the result text and moves to `Win`, which is what the result screen expects to find.

## Model

| member | source | states |
|---|---|---|
| Fletcher.Add | src/checksum.rs:33-36 | one loop step keeps both accumulators in [0, 254], so neither `u16` addition (at most 509 and 508) can overflow; sum1 gains the byte and sum2 gains the new sum1, both mod 255 |
| Fletcher.Run | src/checksum.rs:33-36 | after any prefix of the data both accumulators are reduced below 255 |
| Fletcher.Pack | src/checksum.rs:38 | the folded word has sum2 as its high byte and sum1 as its low byte |
| Fletcher.ShiftOrIsSum | src/checksum.rs:38 | on 16-bit words, shifting byte hi up by 8 and or-ing in byte lo gives hi·256 + lo |
| Fletcher.RunClosedForm | src/checksum.rs:33-36 | the loop's sum1 is the byte sum mod 255 and its sum2 the sum of byte i weighted by n-i, mod 255 |
| Fletcher.Checksum16 | src/checksum.rs:29-39 | the checksum's high byte is the weighted byte sum mod 255 and its low byte the plain byte sum mod 255 |
| Fletcher.EmptyChecksum | src/checksum.rs:30-31 | no data gives checksum 0 |
| Fletcher.Fletcher16 | src/checksum.rs:29-39 | the byte loop, with `u16` arithmetic, returns exactly that checksum |
| Fletcher.LowByteDetectsSingleByteChange | src/checksum.rs:34 | changing one byte by an amount that is not a multiple of 255 changes the low byte of the checksum |
| Fletcher.LowByteBlindSpot | src/checksum.rs:34 | replacing a 0 byte by 255, or a 255 byte by 0, leaves the low byte unchanged |
| Fletcher.LowByteMissesExactly | src/checksum.rs:34 | a single-byte change leaves the low byte unchanged iff the byte stays the same or 0 and 255 are swapped: 0 and 255 are the only pair of byte values it cannot tell apart |
| Checksum.Record | src/checksum.rs:16-21 | the record is 20 bytes: the four little-endian bytes of pos.x, pos.y, pos.z, vel.x, vel.y, in that order |
| Checksum.RecordFields | src/checksum.rs:16-21 | each field can be read back as the k-th four-byte block of the record |
| Checksum.ActorChecksum | src/checksum.rs:15-24 | an actor's checksum has as high byte the weighted byte sum of its record mod 255 and as low byte the plain byte sum mod 255 |
| Checksum.ChecksumPlayers | src/checksum.rs:15-24 | every actor keeps all of its state except the checksum, which becomes the checksum of its current record |
| Checksum.FromScratch | src/checksum.rs:15-24 | the old checksum values have no influence on the new ones |
| Checksum.ChecksumIdempotent | src/checksum.rs:15-24 | running the checksum stage twice gives what running it once gives |
| Round.EncodeInput | src/round.rs:49-66 | bit 1 is set iff W is held, 2 iff S, 4 iff A, 8 iff D; the byte is below 16 |
| Round.EncodeThenDecode | src/round.rs:49-66 | decoding the byte gives back exactly the held movement keys, and the handle does not matter |
| Round.DecodeThenEncode | src/round.rs:49-66 | every byte below 16 is the encoding of the keys it decodes to |
| Round.AxisRule | src/round.rs:129-148 | a component is set to +speed or -speed when exactly one of its keys is held, multiplied by FRICTION when neither is, and left as is when both are |
| Round.SteerVelocity | src/round.rs:129-148 | up/down drive y, right/left drive x, each by that rule |
| Round.OppositeKeysKeepComponent | src/round.rs:129-148 | on either axis, holding both keys keeps the component, while holding neither changes a moving one |
| Round.ClampSpeed | src/round.rs:151-156 | the result's speed is at most MAX_SPEED; a velocity within the limit is unchanged; one above it ends up exactly at MAX_SPEED, parallel to and in the same direction as before |
| Round.ClampSpeedIdempotent | src/round.rs:151-156 | clamping an already clamped velocity changes nothing |
| Round.UpdateVelocity | src/round.rs:127-157 | after one frame's velocity update the speed never exceeds MAX_SPEED, whatever the input |
| Round.UpdateVelocities | src/round.rs:122-158 | each actor's velocity is updated from the input at its own handle; its handle, position and checksum stay |
| Round.StatusIgnored | src/round.rs:127 | two input tables that differ only in the `InputStatus` half give the same velocities |
| Round.Clamp | src/round.rs:168-169 | the clamped value lies in [lo, hi], equals x when x is in range, and is the nearer end otherwise |
| Round.MoveActor | src/round.rs:160-171 | after moving, x and y lie within ±(PLANE_SIZE - CUBE_SIZE)/2; z and the velocity are unchanged; a move that stays in range gives exactly pos + vel, and a move past a wall, on either side and on either axis, stops exactly on that wall |
| Round.MovePlayers | src/round.rs:160-171 | every actor is moved by that rule, and no actor is added, dropped or reordered |
| Round.WallOverhang | src/round.rs:167 | an actor driven into the right wall stops at the bound with part of its sprite past the plane's edge |
| Round.IncreaseFrameCount | src/round.rs:118-120 | the counter advances by exactly one, wrapping to 0 after `u32::MAX` |
| Round.SetupRound | src/round.rs:68-71 | a round starts at frame 0 |
| Round.SpawnPlayers | src/round.rs:73-95 | exactly NUM_PLAYERS actors are spawned, actor h with handle h, zero velocity and z = 0 |
| Round.SpawnCovered | src/round.rs:73-95 | every spawned handle indexes an input table of NUM_PLAYERS entries |
| Schedule.Tick | src/main.rs:74-93 | a frame counts up once; each actor's velocity comes from its own input, its position from that new velocity, and its checksum from the position and velocity after movement; afterwards every actor is inside the arena and within the speed limit |
| Schedule.RunTicks | src/main.rs:74-93 | running frames keeps every actor's handle, and after at least one frame every actor is inside the arena and within the speed limit |
| Schedule.RunTicksSplit | src/main.rs:74-93 | running j frames and then the rest from the intermediate state is the same as running all of them |
| Schedule.FrameAfterTicks | src/main.rs:86 | after k frames the counter has advanced by k, modulo 2^32 |
| Schedule.SpawnedAtRestInArena | src/round.rs:73-95 | players spawned on the circle of radius PLANE_SIZE / 4 are at rest and inside the arena |
| Schedule.SpawnedRoundIdles | src/round.rs:73-95 | in a round just set up, with no key held, every player stays at rest on its spawn point for any number of frames |
| Schedule.IdleRun | src/round.rs:143-148 | with no key held, actors at rest inside the arena stay exactly where they are and at rest, for any number of frames |
| Schedule.HoldUpRun | src/round.rs:129-171 | holding only up from zero x-speed moves each actor MOVEMENT_SPEED per frame upward until it meets the wall, with x unchanged |
| Ui.InteractionColor | src/menu/win.rs:78-97 | pressed, hovered and idle each get their own colour, and the disabled colour is never used |
| Ui.ColorDeterminesInteraction | src/menu/win.rs:84-96 | the colour tells the interaction apart |
| OnlineMenu.TypeChars | src/menu/online.rs:177-181 | typing keeps a valid lobby ID valid (at most four ASCII digits) and never alters what was already typed |
| OnlineMenu.Backspace | src/menu/online.rs:182-186 | backspace removes exactly the last character and leaves an empty ID empty |
| OnlineMenu.UpdateLobbyId | src/menu/online.rs:171-187 | a frame of typing and backspace keeps the lobby ID valid; the result is the ID with the frame's digits appended in event order up to four characters, then, on backspace, the last character dropped |
| OnlineMenu.TypeCharsKeepsLeadingDigits | src/menu/online.rs:177-181 | typing appends the digits among the events, in event order, until the ID holds four, and drops every other character |
| OnlineMenu.TypeThenBackspace | src/menu/online.rs:177-186 | a digit typed into a non-full ID and backspace in the same frame cancel out |
| OnlineMenu.LobbyButtonEnabled | src/menu/online.rs:198-213 | Lobby Match is enabled iff the displayed ID has exactly four characters |
| OnlineMenu.EnabledComponent | src/menu/online.rs:111-112 | only Lobby Match carries an enable flag, and its value is the current Lobby Match flag |
| OnlineMenu.OnlineButtonColor | src/menu/online.rs:215-242 | a disabled button shows the disabled colour whatever the interaction; an enabled one shows its interaction's colour |
| OnlineMenu.OnlinePress | src/menu/online.rs:244-283 | nothing happens unless a clickable button is pressed; Lobby Match connects to "bevy" followed by the lobby ID, Quick Match to "bevy?next=2", and Back returns to the main menu |
| OnlineMenu.LobbyMatchNeedsCompleteId | src/menu/online.rs:198-283 | with the flag refreshed from the ID, pressing Lobby Match connects iff the ID is complete, and then to an eight-character lobby name |
| OnlineMenu.OtherButtonsAlwaysClickable | src/menu/online.rs:250-261 | Quick Match and Back react to a press whatever the lobby ID |
| ConnectMenu.RoomUrl | src/menu/connect.rs:36-37 | the room URL is the matchbox address, a '/', then the lobby ID |
| ConnectMenu.RoomUrlInjective | src/menu/connect.rs:36-37 | different lobbies get different rooms |
| ConnectMenu.CreateMatchboxSocket | src/menu/connect.rs:32-41 | the new socket joins the lobby's room and sees no players yet |
| ConnectMenu.LocalIndices | src/menu/connect.rs:194-198 | the local handles are exactly the indices of the `Local` players, in strictly increasing order |
| ConnectMenu.CollectLocalHandles | src/menu/connect.rs:193-201 | the handle loop pushes exactly those indices |
| ConnectMenu.Registrations | src/menu/connect.rs:195-201 | player i is registered under handle i, for every listed player |
| ConnectMenu.CreateGgrsSession | src/menu/connect.rs:184-211 | a P2P session with the configured player count, prediction window, rate and delay, every listed player, and the local handles |
| ConnectMenu.LocalHandlesAreLocalRegistrations | src/menu/connect.rs:193-201 | a handle is local iff the session registered a `Local` player under it |
| ConnectMenu.UpdateMatchboxSocket | src/menu/connect.rs:43-59 | a session starts iff a socket is present and sees at least NUM_PLAYERS players; then the socket is taken; otherwise the socket only learns the player list, and an absent socket stays absent |
| MainMenu.CreateSynctestSession | src/menu/main.rs:212-233 | a sync-test session with check distance 2 that registers all NUM_PLAYERS players as local under handles 0..N-1, and local handles [0, …, N-1] |
| MainMenu.SynctestHandlesAreLocalIndices | src/menu/main.rs:221-232 | the sync-test handles agree with the network derivation on an all-local player list |
| MainMenu.MainPress | src/menu/main.rs:178-204 | only a press acts: Online goes to the online menu, Local builds the sync-test session and goes to the local round, Quit only requests exit |
| Ui.BackPress | src/menu/win.rs:99-112 | on the result screen, and likewise on the connect screen (`src/menu/connect.rs:161-176`), Back returns to the main menu iff it is pressed |
| App.OnExit | src/round.rs:105-111 | leaving a round removes the frame counter, the session and every player; leaving the connect screen removes the socket; leaving the online and result screens removes their UI; nothing else changes |
| App.OnEnter | src/menu/win.rs:18-76 | entering the result screen shows `MatchData` and removes it; the online screen starts with an empty lobby ID and a disabled Lobby Match; the connect screen opens the socket for `ConnectData` and removes it; a round starts at frame 0 with its players spawned; every resource the entered state's hook does not touch is unchanged |
| App.GoTo | src/main.rs:119-142 | a state change ends in the requested state after the old state's exit hook and then the new state's enter hook: the old state's resources are gone unless the new state recreates them (leaving a round clears the session and the round, leaving the connect screen the socket, leaving the online and result screens their UI), the new state's resources are set up, and everything else is kept |
| App.Step | src/main.rs:96-143 | every event either leaves the state alone or makes one of the moves the menus and rounds allow |
| App.InitialValid | src/main.rs:98 | the application starts in a state that satisfies the resource invariant |
| App.StepPreservesValid | src/main.rs:96-143 | every event keeps the resource invariant: round resources exist exactly in the round states, the socket exactly on the connect screen, `ConnectData` and `MatchData` never outlive their transition, the lobby ID stays valid, a round has one player per handle, and its session kind matches the round |
| App.MainButtonValid | src/menu/main.rs:178-204 | main-menu presses keep the invariant |
| App.OnlineButtonValid | src/menu/online.rs:244-283 | online-menu presses keep the invariant |
| App.SocketPollValid | src/menu/connect.rs:43-59 | the socket poll keeps the invariant |
| App.OtherEventValid | src/main.rs:96-143 | every remaining event keeps the invariant |
| App.AbortWhileConnecting | src/menu/connect.rs:43-63 | a poll that finds too few players stays on the connect screen, and Back then leaves no socket, session or round behind |
| App.LocalMatchStartsRound | src/menu/main.rs:192-196 | Local Match starts a local round with the sync-test session, handles 0..N-1, frame 0 and N players |
| App.LobbyMatchOpensRoom | src/menu/online.rs:263-269 | a complete lobby ID, once shown and enabling the button, makes Lobby Match open the room `MATCHBOX_ADDR/bevy<id>` |
| App.OnlyPressesAct | src/menu/main.rs:185 | hovering over or leaving a button never changes the application |
| App.QuitKeepsState | src/menu/main.rs:198-200 | Quit only requests the exit; the state and every resource stay |
| App.AssetsOpenMainMenu | src/main.rs:61-64 | once the assets are loaded the loading state moves to the main menu and nothing else changes |
| App.OnlineMatchOpensOnlineMenu | src/menu/main.rs:187-191 | Online Match moves to the online screen with an empty lobby ID and Lobby Match disabled, and nothing else changes |
| App.QuickMatchOpensRoom | src/menu/online.rs:271-275 | Quick Match closes the online screen and opens the connect screen with a socket for room `MATCHBOX_ADDR/bevy?next=2` |
| App.OnlineBackToMain | src/menu/online.rs:277-279 | Back on the online screen closes it and moves to the main menu |
| App.PollStartsRound | src/menu/connect.rs:43-59 | a poll that finds at least NUM_PLAYERS players takes the socket and starts the online round with the P2P session of those players, their local indices as handles, frame 0 and the spawned players |
| App.PollKeepsWaiting | src/menu/connect.rs:43-59 | a poll that finds fewer players stays on the connect screen and only records who has joined |
| App.ConnectBackToMain | src/menu/connect.rs:161-176 | Back on the connect screen drops the socket and moves to the main menu |
| App.RoundOverShowsResult | src/main.rs:119-142 | the end of a round tears down its frame counter, players and session and moves to the result screen showing the result text |
| App.WinBackToMain | src/menu/win.rs:99-112 | Back on the result screen removes the result text and moves to the main menu |

## Left out

- The network and GGRS internals are not modelled:
  - the Matchbox/WebRTC socket, `accept_new_connections`, the GGRS `SessionBuilder`, P2P
    and sync-test sessions, rollback save/restore, and network statistics
    (`src/round.rs:97-103`);
  - a socket is its room URL and ordered player list;
  - the poll receives the accepted player list as a parameter.
- UI construction is not modelled: the nodes, texts, fonts and cameras spawned by every
  `setup_ui`. Only the lobby text, the button enable flag and the result text, which carry
  behaviour, are kept.
- WASM window resizing (`src/main.rs:147-162`) is browser I/O.
- IEEE `f32` rounding is not modelled. Values are reals, and `sqrt` and `to_le_bytes` are
  parameters.
- The `cos`/`sin` spawn positions are not computed. `spawnAt` is a parameter, and
  `Round.OnSpawnCircle` states only that it lands on the spawn circle.
- The library panics (`expect` on builder and state errors) are not modelled. Each builder
  call is assumed to succeed.
- `check_win` is not part of this model. The end of a round is the external
  `App.RoundOver` event.
- The older screens `src/menu.rs`, `src/connect.rs` and `src/win.rs` duplicate the flow
  modelled from `src/menu/*.rs` under state names that no longer exist.
- Round ticks are not events of `App`, because GGRS drives them. `Schedule` models ticks
  on the round's own state, which is what `App` sets up and tears down.
- `cleanup_round` despawns player entities but not the camera that `setup_round` spawns.
  Cameras are not modelled.
- `LocalHandles` is never removed by any exit hook. The model keeps the last value, which
  the next session overwrites.
- Round.UpdateVelocity: its contract states only the speed bound. The exact per-axis
  effect is stated by `Round.AxisRule`, `Round.SteerVelocity` and `Round.ClampSpeed`, of
  which it is the composition.
- Checksum.ChecksumPlayers: as written, `spawn_players` (`src/round.rs:73-95`) inserts no
  `Checksum` component, and `checksum_players` only visits entities that have one, so it
  visits none. The model gives every actor a checksum field that starts at 0
  (`Checksum::default()`) and checksums every actor, which is what the checksum stage is
  there for.
- Round.IncreaseFrameCount: a debug build panics on overflow instead of wrapping. That needs
  2^32 frames, about 2.3 years at 60 frames per second.
