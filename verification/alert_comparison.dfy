/**
 * The two alert implementations disagree on the boundary: the chat bot compares strictly,
 * the standalone alert system inclusively. Both are modelled as written.
 */
module AlertComparison {
  import opened Wrappers
  import FinancialBot
  import AlertSystem

  /**
   * At a price exactly equal to the threshold, the standalone system's above and below
   * alerts fire while the chat bot's price-above and price-below alerts do not; away from
   * the boundary the two agree.
   */
  lemma BoundaryDisagreement(symbol: string, level: real, price: real)
    ensures var bot := FinancialBot.Alert(1, symbol, FinancialBot.PriceAbove, level, "", "", false, None, None);
            var sys := AlertSystem.PriceAlert(1, symbol, level, "above", "", false, None, None);
            && !FinancialBot.Fires(bot, FinancialBot.Quote(Some(level), None))
            && AlertSystem.Hits(sys, symbol, level)
            && (price != level ==>
                  (FinancialBot.Fires(bot, FinancialBot.Quote(Some(price), None)) <==> AlertSystem.Hits(sys, symbol, price)))
    ensures var bot := FinancialBot.Alert(1, symbol, FinancialBot.PriceBelow, level, "", "", false, None, None);
            var sys := AlertSystem.PriceAlert(1, symbol, level, "below", "", false, None, None);
            && !FinancialBot.Fires(bot, FinancialBot.Quote(Some(level), None))
            && AlertSystem.Hits(sys, symbol, level)
            && (price != level ==>
                  (FinancialBot.Fires(bot, FinancialBot.Quote(Some(price), None)) <==> AlertSystem.Hits(sys, symbol, price)))
  {
  }
}
