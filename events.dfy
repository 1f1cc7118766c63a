/** The SDL input events the game's handlers look at, and the SDL3 key codes they compare
    against. Polling is not modelled: a handler receives the events of one poll as a
    sequence. */
module Events {

  datatype Event =
    | Quit
    | KeyDown(key: nat)
    | MouseButtonDown(button: nat, x: real, y: real)
    | OtherEvent

  /** SDL3 key codes: printable keys are their character code; other keys carry bit 30
      plus their scan code. */
  const KEY_BACKSPACE: nat := 0x08
  const KEY_RETURN: nat := 0x0D
  const KEY_ESCAPE: nat := 0x1B
  const KEY_HOME: nat := 0x4000004A
  const KEY_RIGHT: nat := 0x4000004F
  const KEY_LEFT: nat := 0x40000050
  const KEY_DOWN: nat := 0x40000051
  const KEY_UP: nat := 0x40000052

  /** SDL_BUTTON_LEFT. */
  const BUTTON_LEFT: nat := 1

  predicate IsArrowKey(key: nat)
  {
    key == KEY_UP || key == KEY_DOWN || key == KEY_LEFT || key == KEY_RIGHT
  }
}
