/** A Mabula marble: a colour fixed at creation and a position on the 8 x 8
    board that moves as the marble is pushed. The marble is a reference
    object, so every board cell and every set that holds it sees the same
    position. */
module BilleProtocole {

  /** Largest coordinate on the board (the board is 8 x 8). */
  const MaxCoord := 7

  /** The documented precondition of setPosition: a cell of the board that is
      not one of the four corners {0,0}, {0,7}, {7,0}, {7,7}. */
  predicate Settable(horizontale: int, verticale: int) {
    0 <= horizontale <= MaxCoord && 0 <= verticale <= MaxCoord &&
    !((horizontale == 0 || horizontale == MaxCoord) && (verticale == 0 || verticale == MaxCoord))
  }

  class Bille {
    /** The colour is a `let`: it never changes once the marble exists. */
    const couleur: string
    var posH: int
    var posV: int

    constructor (couleur: string, horizontale: int, verticale: int)
      ensures GetCouleur() == couleur
      ensures GetPosHorizontale() == horizontale && GetPosVerticale() == verticale
    {
      this.couleur := couleur;
      posH := horizontale;
      posV := verticale;
    }

    function GetCouleur(): (c: string)
      ensures c == couleur
    {
      couleur
    }

    function GetPosHorizontale(): (h: int)
      reads this
      ensures h == posH
    {
      posH
    }

    function GetPosVerticale(): (v: int)
      reads this
      ensures v == posV
    {
      posV
    }

    /** Moves the marble; only the two coordinates change. */
    method SetPosition(horizontale: int, verticale: int)
      requires Settable(horizontale, verticale)
      modifies this
      ensures GetPosHorizontale() == horizontale && GetPosVerticale() == verticale
    {
      posH := horizontale;
      posV := verticale;
    }
  }
}
