/**
 * The HashMap code tables of module `dt` (src/nyse/data_types.rs), after page 3 of the
 * NYSE TAQ Pillar Products Client Specification v2.3i. Their values are the variants
 * of the type-3 and type-34 decoders, so each table is checked against the decoder of
 * the same field.
 */
module DataTypes {
  import opened Outcomes
  import opened Text
  import Mt3
  import Mt34

  /**
   * What `T3MarketIDMap::new` leaves in its table: key 3 is inserted twice, first with
   * NYSE Arca Equities and then with NYSE Arca Options, so the second insert wins, and
   * key 4 is never inserted.
   */
  function T3MarketTable(): map<int, Mt3.MarketID>
  {
    map[1 := Mt3.NYSE, 3 := Mt3.NYSEArcaOpt, 5 := Mt3.NYSEBonds, 8 := Mt3.NYSEAmexOpt,
        9 := Mt3.NYSEAmerEq, 10 := Mt3.NYSENatEq, 11 := Mt3.NYSEChiEq]
  }

  /** The market table the type-3 decoder calls for: 4 for NYSE Arca Options, 3 for NYSE Arca Equities. */
  function MarketTable(): map<int, Mt3.MarketID>
  {
    map[1 := Mt3.NYSE, 3 := Mt3.NYSEArcaEq, 4 := Mt3.NYSEArcaOpt, 5 := Mt3.NYSEBonds,
        8 := Mt3.NYSEAmexOpt, 9 := Mt3.NYSEAmerEq, 10 := Mt3.NYSENatEq, 11 := Mt3.NYSEChiEq]
  }

  /** `SecurityTypeMap`: the Security Type letters, 17 keys. */
  function SecurityTypeTable(): map<char, Mt3.SecurityType>
  {
    map['A' := Mt3.ADR, 'C' := Mt3.ComStk, 'D' := Mt3.Deben, 'E' := Mt3.ETF,
        'F' := Mt3.Foreign, 'H' := Mt3.ADShares, 'I' := Mt3.Units, 'L' := Mt3.IdxLnkdNotes,
        'M' := Mt3.OtherBlank, 'O' := Mt3.OrdShrs, 'P' := Mt3.Pfd, 'R' := Mt3.Rights,
        'S' := Mt3.SoBenInt, 'T' := Mt3.Test, 'U' := Mt3.CEF, 'X' := Mt3.IdxSec, 'Y' := Mt3.War]
  }

  /** `SSRTExIDMap`: the SSR Triggering Exchange letters, 19 keys, 'C' for NYSE National. */
  function SSRTexIDTable(): map<char, Mt34.SSRTexID>
  {
    map['N' := Mt34.SSRTexID.NYSE, 'P' := Mt34.NYSEArca, 'C' := Mt34.NYSENational,
        'Q' := Mt34.NASDAQ, 'A' := Mt34.NYSEAmerican, 'B' := Mt34.NASDAQOMXBX,
        'D' := Mt34.FINRA, 'I' := Mt34.ISE, 'J' := Mt34.EDGA, 'K' := Mt34.EDGX,
        'L' := Mt34.LTSE, 'M' := Mt34.NYSEChicago, 'S' := Mt34.CTS, 'T' := Mt34.NASDAQOMX,
        'V' := Mt34.IEX, 'W' := Mt34.CBSX, 'X' := Mt34.NASDAQOMXPSX, 'Y' := Mt34.CBOEBYX,
        'Z' := Mt34.CBOEBZX]
  }

  /**
   * Apart from key 3, the table as written files every market number under the market
   * the type-3 decoder reads from that number's decimal text.
   */
  lemma T3MarketTableAgrees(k: int)
    requires k in T3MarketTable() && k != 3
    ensures k >= 0 && T3MarketTable()[k] == Mt3.GetMarketId(NatToDigits(k))
  {
    if k == 10 {
      assert NatToDigits(10) == NatToDigits(1) + [DigitChar(0)] == "10";
    } else if k == 11 {
      assert NatToDigits(11) == NatToDigits(1) + [DigitChar(1)] == "11";
    }
  }

  /**
   * The table as written disagrees with the type-3 decoder on 3 and on 4: the decoder
   * reads "3" as NYSE Arca Equities and "4" as NYSE Arca Options, while the table files
   * NYSE Arca Options under 3 and has nothing under 4.
   */
  lemma T3MarketTableDisagrees()
    ensures T3MarketTable()[3] == Mt3.NYSEArcaOpt != Mt3.GetMarketId(NatToDigits(3))
    ensures 4 !in T3MarketTable() && Mt3.GetMarketId(NatToDigits(4)) == Mt3.NYSEArcaOpt
    ensures Mt3.NYSEArcaEq !in T3MarketTable().Values
  {
    assert NatToDigits(3) == "3" && NatToDigits(4) == "4";
  }

  /**
   * The corrected table agrees with the type-3 decoder on every number, and holds every
   * market the decoder knows.
   */
  lemma MarketTableAgrees(k: int)
    requires k in MarketTable()
    ensures k >= 0 && MarketTable()[k] == Mt3.GetMarketId(NatToDigits(k))
    ensures MarketTable()[k] != Mt3.MarketID.Error
  {
    if k == 10 {
      assert NatToDigits(10) == NatToDigits(1) + [DigitChar(0)] == "10";
    } else if k == 11 {
      assert NatToDigits(11) == NatToDigits(1) + [DigitChar(1)] == "11";
    }
  }

  /** Every market the decoder knows is a value of the corrected table. */
  lemma MarketTableComplete(v: Mt3.MarketID)
    requires v != Mt3.MarketID.Error
    ensures v in MarketTable().Values
  {
    var t := MarketTable();
    match v
    case NYSE => assert t[1] == v;
    case NYSEArcaEq => assert t[3] == v;
    case NYSEArcaOpt => assert t[4] == v;
    case NYSEBonds => assert t[5] == v;
    case NYSEAmexOpt => assert t[8] == v;
    case NYSEAmerEq => assert t[9] == v;
    case NYSENatEq => assert t[10] == v;
    case NYSEChiEq => assert t[11] == v;
  }

  /** Every key of the security-type table decodes, through `get_security_type`, to its own entry. */
  lemma SecurityTypeTableAgrees(c: char)
    ensures c in SecurityTypeTable() <==> Mt3.GetSecurityType([c]) != Mt3.SecurityType.Error
    ensures c in SecurityTypeTable() ==> SecurityTypeTable()[c] == Mt3.GetSecurityType([c])
  {
  }

  /** Every key of the triggering-exchange table decodes, through `SSRTexID::get`, to its own entry. */
  lemma SSRTexIDTableAgrees(c: char)
    ensures c in SSRTexIDTable() <==> Mt34.GetSSRTexID([c]) != Mt34.SSRTexID.Error
    ensures c in SSRTexIDTable() ==> SSRTexIDTable()[c] == Mt34.GetSSRTexID([c])
  {
    if c in SSRTexIDTable() {
      SSRTexIDTableCodes(c);
      Mt34.SSRTexIDRoundTrip(SSRTexIDTable()[c]);
    } else {
      var r := Mt34.GetSSRTexID([c]);
      if r != Mt34.SSRTexID.Error {
        SSRTexIDTableCovers(r);
        assert false;
      }
    }
  }

  /** Each letter of the table is the code of the exchange filed under it. */
  lemma SSRTexIDTableCodes(c: char)
    requires c in SSRTexIDTable()
    ensures SSRTexIDTable()[c] != Mt34.SSRTexID.Error && Mt34.SSRTexIDCode(SSRTexIDTable()[c]) == [c]
  {
  }

  /** Every exchange the decoder knows has a one-letter code, and the table holds that letter. */
  lemma SSRTexIDTableCovers(v: Mt34.SSRTexID)
    requires v != Mt34.SSRTexID.Error
    ensures |Mt34.SSRTexIDCode(v)| == 1 && Mt34.SSRTexIDCode(v)[0] in SSRTexIDTable()
  {
  }

  /** `T3MarketIDMap` as written. */
  class T3MarketIDMap {
    const table: map<int, Mt3.MarketID>

    ghost predicate Valid() {
      table == T3MarketTable()
    }

    /** Fills the table one insert at a time; the second insert under 3 replaces the first. */
    constructor ()
      ensures Valid() && |table| == 7
    {
      var m: map<int, Mt3.MarketID> := map[];
      m := m[1 := Mt3.NYSE];
      m := m[3 := Mt3.NYSEArcaEq];
      m := m[3 := Mt3.NYSEArcaOpt];
      m := m[5 := Mt3.NYSEBonds];
      m := m[8 := Mt3.NYSEAmexOpt];
      m := m[9 := Mt3.NYSEAmerEq];
      m := m[10 := Mt3.NYSENatEq];
      m := m[11 := Mt3.NYSEChiEq];
      table := m;
    }

    /** Looks a market number up, without changing the table. */
    function Get(key: int): (r: Option<Mt3.MarketID>)
      reads this
      requires Valid()
      ensures r.Some? <==> key in {1, 3, 5, 8, 9, 10, 11}
      ensures key == 3 ==> r == Some(Mt3.NYSEArcaOpt)
      ensures r.Some? && key != 3 ==> key >= 0 && r.value == Mt3.GetMarketId(NatToDigits(key))
    {
      if key in table then
        (if key != 3 then T3MarketTableAgrees(key); Some(table[key]) else Some(table[key]))
      else None
    }
  }

  /** `T3MarketIDMap` with the second insert filed under 4, as the type-3 decoder reads the codes. */
  class CorrectedT3MarketIDMap {
    const table: map<int, Mt3.MarketID>

    ghost predicate Valid() {
      table == MarketTable()
    }

    constructor ()
      ensures Valid() && |table| == 8
    {
      var m: map<int, Mt3.MarketID> := map[];
      m := m[1 := Mt3.NYSE];
      m := m[3 := Mt3.NYSEArcaEq];
      m := m[4 := Mt3.NYSEArcaOpt];
      m := m[5 := Mt3.NYSEBonds];
      m := m[8 := Mt3.NYSEAmexOpt];
      m := m[9 := Mt3.NYSEAmerEq];
      m := m[10 := Mt3.NYSENatEq];
      m := m[11 := Mt3.NYSEChiEq];
      table := m;
    }

    /** Agrees with the type-3 decoder on every number it knows. */
    function Get(key: int): (r: Option<Mt3.MarketID>)
      reads this
      requires Valid()
      ensures r.Some? <==> key in {1, 3, 4, 5, 8, 9, 10, 11}
      ensures r.Some? ==> key >= 0 && r.value == Mt3.GetMarketId(NatToDigits(key)) != Mt3.MarketID.Error
    {
      if key in table then MarketTableAgrees(key); Some(table[key]) else None
    }
  }

  /** `SecurityTypeMap`. */
  class SecurityTypeMap {
    const table: map<char, Mt3.SecurityType>

    ghost predicate Valid() {
      table == SecurityTypeTable()
    }

    constructor ()
      ensures Valid()
    {
      var m: map<char, Mt3.SecurityType> := map[];
      m := m['A' := Mt3.ADR];
      m := m['C' := Mt3.ComStk];
      m := m['D' := Mt3.Deben];
      m := m['E' := Mt3.ETF];
      m := m['F' := Mt3.Foreign];
      m := m['H' := Mt3.ADShares];
      m := m['I' := Mt3.Units];
      m := m['L' := Mt3.IdxLnkdNotes];
      m := m['M' := Mt3.OtherBlank];
      m := m['O' := Mt3.OrdShrs];
      m := m['P' := Mt3.Pfd];
      m := m['R' := Mt3.Rights];
      m := m['S' := Mt3.SoBenInt];
      m := m['T' := Mt3.Test];
      m := m['U' := Mt3.CEF];
      m := m['X' := Mt3.IdxSec];
      m := m['Y' := Mt3.War];
      table := m;
    }

    /** Agrees with the type-3 decoder on every letter; `None` exactly where it says `Error`. */
    function Get(key: char): (r: Option<Mt3.SecurityType>)
      reads this
      requires Valid()
      ensures r.Some? <==> Mt3.GetSecurityType([key]) != Mt3.SecurityType.Error
      ensures r.Some? ==> r.value == Mt3.GetSecurityType([key])
    {
      SecurityTypeTableAgrees(key);
      if key in table then Some(table[key]) else None
    }
  }

  /** `SSRTExIDMap`. */
  class SSRTExIDMap {
    const table: map<char, Mt34.SSRTexID>

    ghost predicate Valid() {
      table == SSRTexIDTable()
    }

    constructor ()
      ensures Valid()
    {
      var m: map<char, Mt34.SSRTexID> := map[];
      m := m['N' := Mt34.SSRTexID.NYSE];
      m := m['P' := Mt34.NYSEArca];
      m := m['C' := Mt34.NYSENational];
      m := m['Q' := Mt34.NASDAQ];
      m := m['A' := Mt34.NYSEAmerican];
      m := m['B' := Mt34.NASDAQOMXBX];
      m := m['D' := Mt34.FINRA];
      m := m['I' := Mt34.ISE];
      m := m['J' := Mt34.EDGA];
      m := m['K' := Mt34.EDGX];
      m := m['L' := Mt34.LTSE];
      m := m['M' := Mt34.NYSEChicago];
      m := m['S' := Mt34.CTS];
      m := m['T' := Mt34.NASDAQOMX];
      m := m['V' := Mt34.IEX];
      m := m['W' := Mt34.CBSX];
      m := m['X' := Mt34.NASDAQOMXPSX];
      m := m['Y' := Mt34.CBOEBYX];
      m := m['Z' := Mt34.CBOEBZX];
      table := m;
    }

    /** Agrees with `SSRTexID::get` on every letter; `None` exactly where it says `Error`. */
    function Get(key: char): (r: Option<Mt34.SSRTexID>)
      reads this
      requires Valid()
      ensures r.Some? <==> Mt34.GetSSRTexID([key]) != Mt34.SSRTexID.Error
      ensures r.Some? ==> r.value == Mt34.GetSSRTexID([key])
    {
      SSRTexIDTableAgrees(key);
      if key in table then Some(table[key]) else None
    }
  }

  /** The market table as written, from outside: 3 gives NYSE Arca Options and 4 gives nothing. */
  method T3MarketIDMapScenario() returns (three: Option<Mt3.MarketID>, four: Option<Mt3.MarketID>)
    ensures three == Some(Mt3.NYSEArcaOpt) && four == None
  {
    var t := new T3MarketIDMap();
    three := t.Get(3);
    four := t.Get(4);
  }
}
