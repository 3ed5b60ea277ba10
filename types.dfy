/** The records the Ludo screens share: colours, tokens, seats and the
    seat configuration handed from the setup screen to the game. */
module Types {

  datatype Option<+T> = None | Some(value: T)

  /** The four player colours. */
  datatype Color = Red | Green | Yellow | Blue

  /** A token: `position` -1 is the base, 0..51 the shared ring,
      52..56 the colour's home stretch and 57 home. */
  datatype Token = Token(id: int, color: Color, position: int, isAtHome: bool)

  /** One seat of a match. `avatar` stands for the avatar URL. */
  datatype Player = Player(
    color: Color,
    tokens: seq<Token>,
    isHuman: bool,
    hasFinished: bool,
    isActive: bool,
    avatar: string)

  /** How a seat is played, as chosen on the setup screen. */
  datatype SlotType = Human | AI | Closed

  /** A seat configuration produced by the setup screen. */
  datatype SlotConfig = SlotConfig(color: Color, slotType: SlotType, avatar: string)

  /** A grid cell as (row, column). */
  type Cell = (int, int)
}
