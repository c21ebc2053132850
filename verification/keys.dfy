/** The keyboard and mouse state one frame of the game reads. A key is
    `pressed` while held and `justPressed` only in the frame it went down. */
module Keys {

  datatype Key = Space | Return | S | Q | Escape | Left | A | Right | D

  datatype Input = Input(pressed: set<Key>, justPressed: set<Key>, leftClick: bool)

  /** Space or Return drops the held fruit. */
  predicate DropPressed(i: Input) {
    Space in i.justPressed || Return in i.justPressed
  }

  /** Space or S replaces the previewed fruit. */
  predicate RerollPressed(i: Input) {
    Space in i.justPressed || S in i.justPressed
  }

  /** Holding Q or Escape ends the round. */
  predicate QuitHeld(i: Input) {
    Q in i.pressed || Escape in i.pressed
  }

  /** Space, Return or a left click leaves the menu and game-over screens. */
  predicate ConfirmPressed(i: Input) {
    Space in i.justPressed || Return in i.justPressed || i.leftClick
  }

  predicate LeftHeld(i: Input) {
    Left in i.pressed || A in i.pressed
  }

  predicate RightHeld(i: Input) {
    Right in i.pressed || D in i.pressed
  }
}
