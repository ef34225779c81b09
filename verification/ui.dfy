/** What the menu screens share: Bevy's button interaction and the button colours. */
module Ui {
  import opened Common
  import opened Config

  /** Bevy's `Interaction`. `Pressed` is the variant the older Bevy API used by
      `src/menu/main.rs` and `src/menu/connect.rs` calls `Clicked`; `Idle` is `Interaction::None`. */
  datatype Interaction = Pressed | Hovered | Idle

  /** The button background colours: `NORMAL_BUTTON`, `HOVERED_BUTTON`, `PRESSED_BUTTON`,
      `DISABLED_BUTTON`. */
  datatype ButtonColor = NormalButton | HoveredButton | PressedButton | DisabledButton

  /** `btn_visuals` of an always-enabled button: each interaction has its own colour, and the
      disabled colour is never used. */
  function InteractionColor(i: Interaction): (c: ButtonColor)
    ensures c != DisabledButton
    ensures c == PressedButton <==> i == Pressed
    ensures c == HoveredButton <==> i == Hovered
    ensures c == NormalButton <==> i == Idle
  {
    match i
    case Pressed => PressedButton
    case Hovered => HoveredButton
    case Idle => NormalButton
  }

  /** The colour tells the interaction apart. */
  lemma ColorDeterminesInteraction(i: Interaction, j: Interaction)
    requires InteractionColor(i) == InteractionColor(j)
    ensures i == j
  {
  }

  /** `btn_listeners` of a screen whose one button is Back (the connect and result screens):
      a press returns to the main menu; hovering or leaving does nothing. */
  function BackPress(i: Interaction): (next: Option<AppState>)
    ensures next.Some? <==> i == Pressed
    ensures next.Some? ==> next.value == MenuMain
  {
    if i == Pressed then Some(MenuMain) else None
  }
}
