/** The value types shared by the divination core (types.ts). */
module Types {

  datatype Option<+T> = None | Some(value: T)

  /** The eight compass octants and the centre palace. */
  datatype DirectionId = N | NE | E | SE | S | SW | W | NW | C

  /** The five elements a star is associated with. */
  datatype ElementType = Wood | Fire | Earth | Metal | Water

  /** The twelve signs, declared in the order of the zodiac cycle (Rat first). */
  datatype ZodiacSign = Rat | Ox | Tiger | Rabbit | Dragon | Snake | Horse | Goat | Monkey | Rooster | Dog | Pig

  /** The five kinds of conflict with the year's Tai Sui:
      Value (值太歲), Clash (沖太歲), Punish (刑太歲), Break (破太歲), Harm (害太歲). */
  datatype TaiSuiType = Value | Clash | Punish | Break | Harm

  /** A star of the catalogue; the display strings (colour, description,
      recommendations, taboos) are not part of the model. */
  datatype StarInfo = StarInfo(number: int, name: string, element: ElementType, auspicious: bool)

  /** One of the 24 mountains: its centre angle, its arc [start, end), the octant it
      belongs to, the mountain opposite it (the sitting) and its trigram. */
  datatype MountainInfo = MountainInfo(
    name: string,
    angle: int,
    start: real,
    end: real,
    direction: DirectionId,
    sitting: string,
    trigram: string)

  /** A conflict entry; its description and remedy texts depend only on `kind`. */
  datatype Conflict = Conflict(sign: ZodiacSign, kind: TaiSuiType)

  datatype TaiSuiInfo = TaiSuiInfo(yearSign: ZodiacSign, conflicts: seq<Conflict>)
}
