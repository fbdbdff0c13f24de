/** The football/basketball line derivation: each game's two rows list one
    opening value that is the point spread and one that is the total, and the
    closing-line moneylines tell which side the spread belongs to. */
module Spreads {

  /** One row's lines once `float()` has read them: opening value, closing
      value and second-half value. */
  datatype Quote = Quote(open: real, close: real, half: real)

  /** The derived columns of one game, home and away. */
  datatype Lines = Lines(
    homeOpenSpread: real, awayOpenSpread: real,
    homeCloseSpread: real, awayCloseSpread: real,
    homeHalfSpread: real, awayHalfSpread: real,
    halfTotal: real, openTotal: real, closeTotal: real)

  function Min(a: real, b: real): real { if a < b then a else b }
  function Max(a: real, b: real): real { if a < b then b else a }

  /** `-x if home_ml < away_ml else x`: the home side lays the points
      exactly when its moneyline is the lower (more favoured) one. */
  function Signed(homeMl: int, awayMl: int, x: real): (r: real)
    ensures homeMl < awayMl ==> r == -x
    ensures homeMl >= awayMl ==> r == x
  {
    if homeMl < awayMl then -x else x
  }

  /** The derivation in `NFLOddsScraper._to_schema` for the away row's and
      the home row's quotes. */
  function Derive(away: Quote, home: Quote, homeMl: int, awayMl: int): (r: Lines)
    // the smaller opening value is the spread, the larger the total
    ensures r.homeOpenSpread == Signed(homeMl, awayMl, Min(away.open, home.open))
    ensures r.openTotal == Max(away.open, home.open)
    // the row that supplied the opening spread supplies the closing and
    // second-half spreads; the other row supplies the closing and
    // second-half totals; on equal openings that row is the home row
    ensures away.open < home.open ==>
              r.homeCloseSpread == Signed(homeMl, awayMl, away.close) && r.homeHalfSpread == Signed(homeMl, awayMl, away.half)
              && r.closeTotal == home.close && r.halfTotal == home.half
    ensures home.open <= away.open ==>
              r.homeCloseSpread == Signed(homeMl, awayMl, home.close) && r.homeHalfSpread == Signed(homeMl, awayMl, home.half)
              && r.closeTotal == away.close && r.halfTotal == away.half
    // the away side is always the mirror image of the home side
    ensures r.awayOpenSpread == -r.homeOpenSpread
    ensures r.awayCloseSpread == -r.homeCloseSpread
    ensures r.awayHalfSpread == -r.homeHalfSpread
  {
    var spreadRow := if away.open < home.open then away else home;
    var totalRow := if away.open < home.open then home else away;
    var homeOpen := Signed(homeMl, awayMl, spreadRow.open);
    var homeClose := Signed(homeMl, awayMl, spreadRow.close);
    var homeHalf := Signed(homeMl, awayMl, spreadRow.half);
    Lines(homeOpen, -homeOpen, homeClose, -homeClose, homeHalf, -homeHalf,
          totalRow.half, totalRow.open, totalRow.close)
  }

  /** The home and away columns exchanged. */
  function Mirror(l: Lines): Lines {
    Lines(l.awayOpenSpread, l.homeOpenSpread, l.awayCloseSpread, l.homeCloseSpread,
          l.awayHalfSpread, l.homeHalfSpread, l.halfTotal, l.openTotal, l.closeTotal)
  }

  /** The favourite lays the points: with a positive listed spread, the side
      with the lower moneyline gets the negative spread and the other side
      the positive one. */
  lemma FavouriteLaysPoints(away: Quote, home: Quote, homeMl: int, awayMl: int)
    requires Min(away.open, home.open) > 0.0
    ensures homeMl < awayMl ==> Derive(away, home, homeMl, awayMl).homeOpenSpread < 0.0 < Derive(away, home, homeMl, awayMl).awayOpenSpread
    ensures awayMl < homeMl ==> Derive(away, home, homeMl, awayMl).awayOpenSpread < 0.0 < Derive(away, home, homeMl, awayMl).homeOpenSpread
  {
  }

  /** Which row is listed first does not matter, except in the two tie
      cases: listing the home row first, with the moneylines exchanged,
      gives the same game seen from the other side. */
  lemma RowOrderIrrelevant(away: Quote, home: Quote, homeMl: int, awayMl: int)
    requires away.open != home.open
    requires homeMl != awayMl
    ensures Derive(home, away, awayMl, homeMl) == Mirror(Derive(away, home, homeMl, awayMl))
  {
  }

  /** Equal moneylines leave the home side with the listed (positive) spread,
      whichever side is listed first: the two listings are then not mirror
      images of each other. */
  lemma EqualMoneylines(away: Quote, home: Quote, ml: int)
    ensures Derive(away, home, ml, ml).homeOpenSpread == Min(away.open, home.open)
    ensures Derive(home, away, ml, ml).homeOpenSpread == Min(away.open, home.open)
  {
  }

  /** Equal opening values: the home row's figures are read as the spread
      whichever row holds the other figures. */
  lemma TiedOpeningsUseHomeRow(away: Quote, home: Quote, homeMl: int, awayMl: int)
    requires away.open == home.open
    ensures Derive(away, home, homeMl, awayMl).closeTotal == away.close
    ensures Derive(away, home, homeMl, awayMl).homeCloseSpread == Signed(homeMl, awayMl, home.close)
  {
  }

  /** A game listed as away 3 / ML -150, home 44 / ML +130: the away side is
      favoured, so it lays 3 and the home side gets +3; 44 is the total. */
  lemma WorkedExample()
    ensures var l := Derive(Quote(3.0, 3.5, 1.0), Quote(44.0, 45.5, 22.0), 130, -150);
            l.homeOpenSpread == 3.0 && l.awayOpenSpread == -3.0 && l.openTotal == 44.0
            && l.homeCloseSpread == 3.5 && l.awayCloseSpread == -3.5 && l.closeTotal == 45.5
            && l.homeHalfSpread == 1.0 && l.halfTotal == 22.0
  {
  }
}
