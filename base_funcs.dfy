/**
 * Message classification and the message and per-symbol trade counters
 * (src/nyse/base_funcs.rs).
 */
module BaseFuncs {

  /** The kinds of line in the feed: type 3, type 34, type 220, anything else. */
  datatype NYSEMsg = T003 | T034 | T220 | Error

  /** The type token each recognised kind is written with. */
  function MsgTypeCode(k: NYSEMsg): string
    requires k != Error
  {
    match k
    case T003 => "3"
    case T034 => "34"
    case T220 => "220"
  }

  /** Classifies a message-type token; total, with `Error` for every unknown token. */
  function GetMsgType(msg: string): (k: NYSEMsg)
    ensures k != Error ==> MsgTypeCode(k) == msg
    ensures k == Error <==> msg !in {"3", "34", "220"}
  {
    if msg == "3" then T003
    else if msg == "34" then T034
    else if msg == "220" then T220
    else Error
  }

  /** Every recognised kind is read back from its own token. */
  lemma MsgTypeRoundTrip(k: NYSEMsg)
    requires k != Error
    ensures GetMsgType(MsgTypeCode(k)) == k
  {
  }

  /** The value a counter map holds for a key, 0 when the key has no entry yet. */
  function CountOf<K>(m: map<K, int>, k: K): int
  {
    if k in m then m[k] else 0
  }

  /** `*m.entry(k).or_insert(0) += amount`: the entry for k grows by amount, created if missing. */
  function Credit<K(!new)>(m: map<K, int>, k: K, amount: int): (r: map<K, int>)
    ensures r.Keys == m.Keys + {k}
    ensures CountOf(r, k) == CountOf(m, k) + amount
    ensures forall j :: j != k ==> CountOf(r, j) == CountOf(m, j)
  {
    m[k := CountOf(m, k) + amount]
  }

  /** The counter map after crediting each (key, amount) entry in order, starting empty. */
  function Credits<K(!new)>(entries: seq<(K, int)>): map<K, int>
  {
    if entries == [] then map[]
    else
      var last := entries[|entries| - 1];
      Credit(Credits(entries[..|entries| - 1]), last.0, last.1)
  }

  /** Sum of the amounts credited to key k. */
  function AmountFor<K(==)>(entries: seq<(K, int)>, k: K): int
  {
    if entries == [] then 0
    else
      var last := entries[|entries| - 1];
      AmountFor(entries[..|entries| - 1], k) + (if last.0 == k then last.1 else 0)
  }

  /**
   * Running-total invariant of the counters: after any sequence of credits the entry
   * of a key is the sum of the amounts credited to it, and it exists exactly when
   * the key was credited at least once.
   */
  lemma {:induction false} CreditsSum<K(!new)>(entries: seq<(K, int)>, k: K)
    ensures CountOf(Credits(entries), k) == AmountFor(entries, k)
    ensures k in Credits(entries) <==> exists i :: 0 <= i < |entries| && entries[i].0 == k
  {
    if entries != [] {
      var init := entries[..|entries| - 1];
      CreditsSum(init, k);
      if (exists i :: 0 <= i < |init| && init[i].0 == k) {
        var i :| 0 <= i < |init| && init[i].0 == k;
        assert entries[i].0 == k;
      }
      if (exists i :: 0 <= i < |entries| && entries[i].0 == k) {
        var i :| 0 <= i < |entries| && entries[i].0 == k;
        if i < |init| {
          assert init[i].0 == k;
        }
      }
    }
  }

  /** Per-kind message counter (`MsgStats`). */
  class MsgStats {
    var msgCount: map<NYSEMsg, int>

    constructor ()
      ensures msgCount == map[]
    {
      msgCount := map[];
    }

    /** Counts one more message of kind `msg`; every other kind's count is unchanged. */
    method Add(msg: NYSEMsg)
      modifies this
      ensures msgCount == Credit(old(msgCount), msg, 1)
      ensures msg in msgCount && msgCount[msg] == CountOf(old(msgCount), msg) + 1
      ensures forall k :: k != msg ==> CountOf(msgCount, k) == CountOf(old(msgCount), k)
    {
      msgCount := Credit(msgCount, msg, 1);
    }
  }

  /** Per-symbol trade count and traded volume (`TradeStats`, without the running average price). */
  class TradeStats {
    var count: map<string, int>
    var totalVolume: map<string, int>

    constructor ()
      ensures count == map[] && totalVolume == map[]
    {
      count := map[];
      totalVolume := map[];
    }

    /** Records one trade of `volume` shares in `symbol`; other symbols' entries are unchanged. */
    method Add(symbol: string, volume: int)
      modifies this
      ensures count == Credit(old(count), symbol, 1)
      ensures totalVolume == Credit(old(totalVolume), symbol, volume)
      ensures CountOf(count, symbol) == CountOf(old(count), symbol) + 1
      ensures CountOf(totalVolume, symbol) == CountOf(old(totalVolume), symbol) + volume
      ensures forall s :: s != symbol ==>
        CountOf(count, s) == CountOf(old(count), s) && CountOf(totalVolume, s) == CountOf(old(totalVolume), s)
    {
      count := Credit(count, symbol, 1);
      totalVolume := Credit(totalVolume, symbol, volume);
    }
  }

  /** The message counter and the trade counter of one run (`Stats`). */
  class Stats {
    const msgStats: MsgStats
    const tradeStats: TradeStats

    constructor ()
      ensures fresh(msgStats) && fresh(tradeStats)
      ensures msgStats.msgCount == map[]
      ensures tradeStats.count == map[] && tradeStats.totalVolume == map[]
    {
      msgStats := new MsgStats();
      tradeStats := new TradeStats();
    }
  }

  /** Adds T003 twice, T034 three times and T220 seven times and reads back the counts. */
  method MsgStatsScenario() returns (c003: int, c034: int, c220: int)
    ensures c003 == 2 && c034 == 3 && c220 == 7
  {
    var stats := new MsgStats();
    stats.Add(T003);
    stats.Add(T003);
    assert CountOf(stats.msgCount, T003) == 2;
    stats.Add(T034);
    stats.Add(T034);
    stats.Add(T034);
    assert CountOf(stats.msgCount, T003) == 2 && CountOf(stats.msgCount, T034) == 3;
    stats.Add(T220);
    stats.Add(T220);
    stats.Add(T220);
    stats.Add(T220);
    stats.Add(T220);
    stats.Add(T220);
    stats.Add(T220);
    c003, c034, c220 := stats.msgCount[T003], stats.msgCount[T034], stats.msgCount[T220];
  }

  /** The classifier's own test vectors: "3", "34", "220" are recognised; "0" and "202" are not. */
  lemma MsgTypeExamples()
    ensures GetMsgType("3") == T003 && GetMsgType("34") == T034 && GetMsgType("220") == T220
    ensures GetMsgType("0") == Error && GetMsgType("202") == Error
  {
  }
}
