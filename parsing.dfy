/**
 * The line dispatcher `process_line` (src/general/parsing.rs): it classifies a feed
 * line by its first comma-separated token, counts it, and routes it by kind. Symbol
 * mappings register their symbol; trades are decoded, trades at the official open or
 * close are dropped, and the rest go to the trade, event and symbol statistics.
 *
 * The trade decoder `T220::new` and the event and symbol statistics are not part of
 * this model: the decoder is a function parameter, the calls made on the event and
 * symbol statistics are logged, and the outcome of the event update is a parameter.
 */
module Parsing {
  import opened Outcomes
  import opened Text
  import opened BaseFuncs
  import opened Mt220

  const MSG_IDX: nat := 0
  const SYMBOL_IDX: nat := 2
  const UnknownType: string := "unknown message type"

  /** The fields of a decoded trade that the dispatcher reads. */
  datatype Trade = Trade(symbol: string, sourceTime: string, price: int, volume: int, cond2: Tc2, cond4: Tc4)

  /** A call made on the event statistics. */
  datatype EventCall = Init(symbol: string) | EventUpdate(symbol: string, sourceTime: string, price: int, volume: int)

  /** A call made on the symbol statistics. */
  datatype SymbolCall = SymbolAdd(symbol: string) | SymbolUpdate(symbol: string, volume: int)

  /** The trades the statistics leave out: official open or close prints and market-center opening or closing trades. */
  predicate Excluded(t: Trade)
  {
    t.cond4 == OOpenPrice || t.cond4 == OClosePrice || t.cond2 == MCCT || t.cond2 == MCO
  }

  /** The kind of a line, by its first token. */
  function KindOf(line: string): NYSEMsg
  {
    GetMsgType(Split(line, ',')[MSG_IDX])
  }

  /** What `process_line` does to a line: its result and the calls it makes on the statistics. */
  datatype Effect = Effect(result: Result<(), string>, trade: Option<Trade>, events: seq<EventCall>, symbols: seq<SymbolCall>)

  /** A line is well formed enough not to make `process_line` panic: a symbol mapping has a symbol token. */
  predicate Indexable(line: string)
  {
    KindOf(line) == T003 ==> |Split(line, ',')| > SYMBOL_IDX
  }

  /**
   * The dispatch of `process_line`, given the trade decoder and the outcome of the event
   * update (`None` for success, `Some(e)` for its error).
   */
  function Dispatch(line: string, decode: seq<string> -> Result<Trade, string>, eventError: Option<string>): Effect
    requires Indexable(line)
  {
    var tokens := Split(line, ',');
    match GetMsgType(tokens[MSG_IDX])
    case T003 =>
      var symbol := tokens[SYMBOL_IDX];
      Effect(Ok(()), None, [Init(symbol)], [SymbolAdd(symbol)])
    case T034 => Effect(Ok(()), None, [], [])
    case T220 =>
      (match decode(tokens)
       case Err(e) => Effect(Err(e), None, [], [])
       case Ok(t) =>
         if Excluded(t) then Effect(Ok(()), None, [], [])
         else
           var update := [EventUpdate(t.symbol, t.sourceTime, t.price, t.volume)];
           match eventError
           case Some(e) => Effect(Err(e), Some(t), update, [])
           case None => Effect(Ok(()), Some(t), update, [SymbolUpdate(t.symbol, t.volume)]))
    case Error => Effect(Err(UnknownType), None, [], [])
  }

  /**
   * A line is an error exactly when its kind is unknown, its trade does not decode or
   * its event update fails; an unknown kind gives the fixed message.
   */
  lemma {:induction false} DispatchErrors(line: string, decode: seq<string> -> Result<Trade, string>, eventError: Option<string>)
    requires Indexable(line)
    ensures var e := Dispatch(line, decode, eventError);
      var tokens := Split(line, ',');
      e.result.Err? <==>
        KindOf(line) == Error ||
        (KindOf(line) == T220 && (decode(tokens).Err? ||
                                  (!Excluded(decode(tokens).value) && eventError.Some?)))
    ensures KindOf(line) == Error ==> Dispatch(line, decode, eventError) == Effect(Err(UnknownType), None, [], [])
    ensures KindOf(line) == T220 && decode(Split(line, ',')).Err? ==>
      Dispatch(line, decode, eventError) == Effect(Err(decode(Split(line, ',')).error), None, [], [])
  {
  }

  /**
   * The trade statistics take a trade exactly when the line is a trade that decodes and
   * is not excluded; then the event statistics are updated with it, and the symbol
   * statistics too unless the event update failed.
   */
  lemma {:induction false} DispatchAccepts(line: string, decode: seq<string> -> Result<Trade, string>, eventError: Option<string>)
    requires Indexable(line)
    ensures var e := Dispatch(line, decode, eventError);
      var tokens := Split(line, ',');
      (e.trade.Some? <==> KindOf(line) == T220 && decode(tokens).Ok? && !Excluded(decode(tokens).value)) &&
      (e.trade.Some? ==>
        e.trade.value == decode(tokens).value &&
        e.events == [EventUpdate(e.trade.value.symbol, e.trade.value.sourceTime, e.trade.value.price, e.trade.value.volume)] &&
        e.symbols == (if eventError.None? then [SymbolUpdate(e.trade.value.symbol, e.trade.value.volume)] else []))
  {
  }

  /**
   * Nothing but the message count changes for a status line, a trade that does not
   * decode, an excluded trade or a line of unknown kind; only symbol mappings register
   * symbols.
   */
  lemma {:induction false} DispatchQuiet(line: string, decode: seq<string> -> Result<Trade, string>, eventError: Option<string>)
    requires Indexable(line)
    ensures var e := Dispatch(line, decode, eventError);
      var tokens := Split(line, ',');
      (KindOf(line) == T034 || KindOf(line) == Error ||
       (KindOf(line) == T220 && (decode(tokens).Err? || Excluded(decode(tokens).value)))) ==>
        e.trade == None && e.events == [] && e.symbols == []
    ensures var e := Dispatch(line, decode, eventError);
      (e.events != [] && e.events[0].Init?) <==> KindOf(line) == T003
    ensures KindOf(line) == T003 ==>
      var symbol := Split(line, ',')[SYMBOL_IDX];
      Dispatch(line, decode, eventError) == Effect(Ok(()), None, [Init(symbol)], [SymbolAdd(symbol)])
  {
  }

  /** The statistics `process_line` updates: the message and trade counters and the calls on the event and symbol statistics. */
  class Stats {
    const msgStats: MsgStats
    const tradeStats: TradeStats
    var eventCalls: seq<EventCall>
    var symbolCalls: seq<SymbolCall>

    constructor ()
      ensures fresh(msgStats) && fresh(tradeStats)
      ensures msgStats.msgCount == map[]
      ensures tradeStats.count == map[] && tradeStats.totalVolume == map[]
      ensures eventCalls == [] && symbolCalls == []
    {
      msgStats := new MsgStats();
      tradeStats := new TradeStats();
      eventCalls := [];
      symbolCalls := [];
    }

    /**
     * `process_line`: counts the line's kind, then dispatches it. The trade statistics
     * take an accepted trade before the event update, whose error is returned after
     * the trade was counted.
     */
    method ProcessLine(line: string, decode: seq<string> -> Result<Trade, string>, eventError: Option<string>)
      returns (r: Result<(), string>)
      requires Indexable(line)
      modifies this, msgStats, tradeStats
      ensures msgStats.msgCount == Credit(old(msgStats.msgCount), KindOf(line), 1)
      ensures var e := Dispatch(line, decode, eventError);
        r == e.result &&
        eventCalls == old(eventCalls) + e.events &&
        symbolCalls == old(symbolCalls) + e.symbols &&
        (e.trade.Some? ==>
          tradeStats.count == Credit(old(tradeStats.count), e.trade.value.symbol, 1) &&
          tradeStats.totalVolume == Credit(old(tradeStats.totalVolume), e.trade.value.symbol, e.trade.value.volume)) &&
        (e.trade.None? ==> tradeStats.count == old(tradeStats.count) && tradeStats.totalVolume == old(tradeStats.totalVolume))
    {
      var tokens := Split(line, ',');
      var msgType := GetMsgType(tokens[MSG_IDX]);
      msgStats.Add(msgType);
      match msgType {
        case T003 =>
          var symbol := tokens[SYMBOL_IDX];
          eventCalls := eventCalls + [Init(symbol)];
          symbolCalls := symbolCalls + [SymbolAdd(symbol)];
          r := Ok(());
        case T034 =>
          r := Ok(());
        case T220 =>
          match decode(tokens) {
            case Err(e) =>
              r := Err(e);
            case Ok(trade) =>
              if trade.cond4 == OOpenPrice || trade.cond4 == OClosePrice {
                return Ok(());
              }
              if trade.cond2 == MCCT || trade.cond2 == MCO {
                return Ok(());
              }
              tradeStats.Add(trade.symbol, trade.volume);
              eventCalls := eventCalls + [EventUpdate(trade.symbol, trade.sourceTime, trade.price, trade.volume)];
              if eventError.Some? {
                return Err(eventError.value);
              }
              symbolCalls := symbolCalls + [SymbolUpdate(trade.symbol, trade.volume)];
              r := Ok(());
          }
        case Error =>
          r := Err(UnknownType);
      }
    }
  }

  /** A decoder that reads every trade line as 100 shares of its third token with the given conditions. */
  function FixedDecoder(cond2: Tc2, cond4: Tc4): seq<string> -> Result<Trade, string>
  {
    tokens => if |tokens| > 2 then Ok(Trade(tokens[2], "09:30:00.000000000", 1000000, 100, cond2, cond4))
              else Err("short trade line")
  }

  /** A symbol mapping for IBM registers IBM with both statistics. */
  lemma SymbolLine(decode: seq<string> -> Result<Trade, string>)
    ensures Indexable("3,1,IBM") && KindOf("3,1,IBM") == T003
    ensures Dispatch("3,1,IBM", decode, None) == Effect(Ok(()), None, [Init("IBM")], [SymbolAdd("IBM")])
  {
    assert "3,1,IBM" == "3" + [','] + "1" + [','] + "IBM";
    SplitThree("3,1,IBM", "3", "1", "IBM", ',');
  }

  /** An ordinary trade on a trade line reaches the trade, event and symbol statistics. */
  lemma OrdinaryTradeLine()
    ensures Indexable("220,2,IBM") && KindOf("220,2,IBM") == T220
    ensures var t := Trade("IBM", "09:30:00.000000000", 1000000, 100, Tc2.NA, Tc4.NA);
      Dispatch("220,2,IBM", FixedDecoder(Tc2.NA, Tc4.NA), None) ==
        Effect(Ok(()), Some(t), [EventUpdate("IBM", t.sourceTime, t.price, 100)], [SymbolUpdate("IBM", 100)])
  {
    assert "220,2,IBM" == "220" + [','] + "2" + [','] + "IBM";
    SplitThree("220,2,IBM", "220", "2", "IBM", ',');
  }

  /** An official opening print on a trade line is dropped after it was counted. */
  lemma OpeningPrintLine()
    ensures Indexable("220,2,IBM") && KindOf("220,2,IBM") == T220
    ensures Dispatch("220,2,IBM", FixedDecoder(Tc2.NA, OOpenPrice), None) == Effect(Ok(()), None, [], [])
  {
    assert "220,2,IBM" == "220" + [','] + "2" + [','] + "IBM";
    SplitThree("220,2,IBM", "220", "2", "IBM", ',');
  }

  /** A line whose kind is 0 is refused as unknown. */
  lemma UnknownLine(decode: seq<string> -> Result<Trade, string>)
    ensures Indexable("0") && KindOf("0") == Error
    ensures Dispatch("0", decode, None) == Effect(Err(UnknownType), None, [], [])
  {
    assert Join(["0"], ',') == "0";
    JoinSplit(["0"], ',');
  }

  /**
   * A symbol mapping, an ordinary trade, an opening print and a line of unknown kind:
   * all four are counted, only the ordinary trade reaches the trade statistics and the
   * unknown line is an error.
   */
  method ProcessLineScenario() returns (counts: seq<int>, trades: int, volume: int, last: Result<(), string>)
    ensures counts == [1, 2, 1] && trades == 1 && volume == 100
    ensures last == Err(UnknownType)
  {
    var stats := new Stats();
    var ordinary, opening := FixedDecoder(Tc2.NA, Tc4.NA), FixedDecoder(Tc2.NA, OOpenPrice);
    SymbolLine(ordinary);
    var r := stats.ProcessLine("3,1,IBM", ordinary, None);
    assert CountOf(stats.msgStats.msgCount, T003) == 1 && CountOf(stats.msgStats.msgCount, T220) == 0;
    assert CountOf(stats.msgStats.msgCount, Error) == 0;
    assert stats.tradeStats.count == map[] && stats.tradeStats.totalVolume == map[];
    OrdinaryTradeLine();
    r := stats.ProcessLine("220,2,IBM", ordinary, None);
    assert CountOf(stats.msgStats.msgCount, T003) == 1 && CountOf(stats.msgStats.msgCount, T220) == 1;
    assert CountOf(stats.msgStats.msgCount, Error) == 0;
    assert CountOf(stats.tradeStats.count, "IBM") == 1 && CountOf(stats.tradeStats.totalVolume, "IBM") == 100;
    OpeningPrintLine();
    r := stats.ProcessLine("220,2,IBM", opening, None);
    assert CountOf(stats.msgStats.msgCount, T003) == 1 && CountOf(stats.msgStats.msgCount, T220) == 2;
    assert CountOf(stats.msgStats.msgCount, Error) == 0;
    assert CountOf(stats.tradeStats.count, "IBM") == 1 && CountOf(stats.tradeStats.totalVolume, "IBM") == 100;
    UnknownLine(ordinary);
    last := stats.ProcessLine("0", ordinary, None);
    counts := [CountOf(stats.msgStats.msgCount, T003), CountOf(stats.msgStats.msgCount, T220),
               CountOf(stats.msgStats.msgCount, Error)];
    trades := CountOf(stats.tradeStats.count, "IBM");
    volume := CountOf(stats.tradeStats.totalVolume, "IBM");
  }
}
