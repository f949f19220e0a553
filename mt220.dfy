/**
 * The four trade-condition fields of the Trade message, type 220 of the NYSE TAQ
 * Pillar Products Client Specification v2.3i (src/nyse/mt220.rs).
 */
module Mt220 {
  import opened Outcomes

  /** Trade condition 1: how the sale was made. */
  datatype Tc1 = RegularSale | Cash | NextDayTrade | RegularSaleTRF | Seller

  /** The condition character each variant of `TC_1` is filed under. */
  function Tc1Code(v: Tc1): char
  {
    match v
    case RegularSale => '@'
    case Cash => 'C'
    case NextDayTrade => 'N'
    case RegularSaleTRF => ' '
    case Seller => 'R'
  }

  /** The documented table of condition field 1. */
  function Tc1Table(): map<char, Tc1>
  {
    map['@' := Tc1.RegularSale, 'C' := Tc1.Cash, 'N' := Tc1.NextDayTrade, ' ' := Tc1.RegularSaleTRF, 'R' := Tc1.Seller]
  }

  /** The table holds exactly the documented characters, each filed under its own variant. */
  lemma Tc1TableCodes()
    ensures Tc1Table().Keys == {'@', 'C', 'N', ' ', 'R'}
    ensures forall c | c in Tc1Table() :: Tc1Code(Tc1Table()[c]) == c
  {
  }

  /** `TC_1_Map`: the lookup table of condition field 1. */
  class Tc1Map {
    const table: map<char, Tc1>

    /** The table is the documented one. */
    ghost predicate Valid() {
      table == Tc1Table()
    }

    /** Fills the table one insert at a time; no key is inserted twice, so nothing is overwritten. */
    constructor ()
      ensures Valid() && |table| == 5
    {
      var m: map<char, Tc1> := map[];
      m := m['@' := Tc1.RegularSale];
      m := m['C' := Tc1.Cash];
      m := m['N' := Tc1.NextDayTrade];
      m := m[' ' := Tc1.RegularSaleTRF];
      m := m['R' := Tc1.Seller];
      assert m.Keys == {'@', 'C', 'N', ' ', 'R'};
      table := m;
    }

    /** Looks a character up, without changing the table. */
    function Get(key: char): (r: Option<Tc1>)
      requires Valid()
      ensures r.Some? <==> key in {'@', 'C', 'N', ' ', 'R'}
      ensures r.Some? ==> Tc1Code(r.value) == key
    {
      Tc1TableCodes();
      if key in table then Some(table[key]) else None
    }
  }

  /** Trade condition 2: sweep, market-center opening or closing print, and similar. */
  datatype Tc2 = NA | ISO | MCO | DerivP | ReopeningTrade | MCCT | QCT | CCC

  /** The condition character each variant of `TC_2` is filed under. */
  function Tc2Code(v: Tc2): char
  {
    match v
    case NA => ' '
    case ISO => 'F'
    case MCO => 'O'
    case DerivP => '4'
    case ReopeningTrade => '5'
    case MCCT => '6'
    case QCT => '7'
    case CCC => '9'
  }

  /** The documented table of condition field 2. */
  function Tc2Table(): map<char, Tc2>
  {
    map[' ' := Tc2.NA, 'F' := Tc2.ISO, 'O' := Tc2.MCO, '4' := Tc2.DerivP, '5' := Tc2.ReopeningTrade, '6' := Tc2.MCCT, '7' := Tc2.QCT, '9' := Tc2.CCC]
  }

  /** The table holds exactly the documented characters, each filed under its own variant. */
  lemma Tc2TableCodes()
    ensures Tc2Table().Keys == {' ', 'F', 'O', '4', '5', '6', '7', '9'}
    ensures forall c | c in Tc2Table() :: Tc2Code(Tc2Table()[c]) == c
  {
  }

  /** `TC_2_Map`: the lookup table of condition field 2. */
  class Tc2Map {
    const table: map<char, Tc2>

    /** The table is the documented one. */
    ghost predicate Valid() {
      table == Tc2Table()
    }

    /** Fills the table one insert at a time; no key is inserted twice, so nothing is overwritten. */
    constructor ()
      ensures Valid() && |table| == 8
    {
      var m: map<char, Tc2> := map[];
      m := m[' ' := Tc2.NA];
      m := m['F' := Tc2.ISO];
      m := m['O' := Tc2.MCO];
      m := m['4' := Tc2.DerivP];
      m := m['5' := Tc2.ReopeningTrade];
      m := m['6' := Tc2.MCCT];
      m := m['7' := Tc2.QCT];
      m := m['9' := Tc2.CCC];
      assert m.Keys == {' ', 'F', 'O', '4', '5', '6', '7', '9'};
      table := m;
    }

    /** Looks a character up, without changing the table. */
    function Get(key: char): (r: Option<Tc2>)
      requires Valid()
      ensures r.Some? <==> key in {' ', 'F', 'O', '4', '5', '6', '7', '9'}
      ensures r.Some? ==> Tc2Code(r.value) == key
    {
      Tc2TableCodes();
      if key in table then Some(table[key]) else None
    }
  }

  /** Trade condition 3: extended-hours marks. */
  datatype Tc3 = NA | ExtendedHoursTrade | ExtendedHoursSold | Sold

  /** The condition character each variant of `TC_3` is filed under. */
  function Tc3Code(v: Tc3): char
  {
    match v
    case NA => ' '
    case ExtendedHoursTrade => 'T'
    case ExtendedHoursSold => 'U'
    case Sold => 'Z'
  }

  /** The documented table of condition field 3. */
  function Tc3Table(): map<char, Tc3>
  {
    map[' ' := Tc3.NA, 'T' := Tc3.ExtendedHoursTrade, 'U' := Tc3.ExtendedHoursSold, 'Z' := Tc3.Sold]
  }

  /** The table holds exactly the documented characters, each filed under its own variant. */
  lemma Tc3TableCodes()
    ensures Tc3Table().Keys == {' ', 'T', 'U', 'Z'}
    ensures forall c | c in Tc3Table() :: Tc3Code(Tc3Table()[c]) == c
  {
  }

  /** `TC_3_Map`: the lookup table of condition field 3. */
  class Tc3Map {
    const table: map<char, Tc3>

    /** The table is the documented one. */
    ghost predicate Valid() {
      table == Tc3Table()
    }

    /** Fills the table one insert at a time; no key is inserted twice, so nothing is overwritten. */
    constructor ()
      ensures Valid() && |table| == 4
    {
      var m: map<char, Tc3> := map[];
      m := m[' ' := Tc3.NA];
      m := m['T' := Tc3.ExtendedHoursTrade];
      m := m['U' := Tc3.ExtendedHoursSold];
      m := m['Z' := Tc3.Sold];
      assert m.Keys == {' ', 'T', 'U', 'Z'};
      table := m;
    }

    /** Looks a character up, without changing the table. */
    function Get(key: char): (r: Option<Tc3>)
      requires Valid()
      ensures r.Some? <==> key in {' ', 'T', 'U', 'Z'}
      ensures r.Some? ==> Tc3Code(r.value) == key
    {
      Tc3TableCodes();
      if key in table then Some(table[key]) else None
    }
  }

  /** Trade condition 4: odd lot, official open or close price, and similar. */
  datatype Tc4 = NA | OddLotTrade | OClosePrice | OOpenPrice | ContTrade | PriorRefPrice | WeightedAvgPrice

  /** The condition character each variant of `TC_4` is filed under. */
  function Tc4Code(v: Tc4): char
  {
    match v
    case NA => ' '
    case OddLotTrade => 'I'
    case OClosePrice => 'M'
    case OOpenPrice => 'Q'
    case ContTrade => 'V'
    case PriorRefPrice => 'P'
    case WeightedAvgPrice => 'W'
  }

  /** The documented table of condition field 4. */
  function Tc4Table(): map<char, Tc4>
  {
    map[' ' := Tc4.NA, 'I' := Tc4.OddLotTrade, 'M' := Tc4.OClosePrice, 'Q' := Tc4.OOpenPrice, 'V' := Tc4.ContTrade, 'P' := Tc4.PriorRefPrice, 'W' := Tc4.WeightedAvgPrice]
  }

  /** The table holds exactly the documented characters, each filed under its own variant. */
  lemma Tc4TableCodes()
    ensures Tc4Table().Keys == {' ', 'I', 'M', 'Q', 'V', 'P', 'W'}
    ensures forall c | c in Tc4Table() :: Tc4Code(Tc4Table()[c]) == c
  {
  }

  /** `TC_4_Map`: the lookup table of condition field 4. */
  class Tc4Map {
    const table: map<char, Tc4>

    /** The table is the documented one. */
    ghost predicate Valid() {
      table == Tc4Table()
    }

    /** Fills the table one insert at a time; no key is inserted twice, so nothing is overwritten. */
    constructor ()
      ensures Valid() && |table| == 7
    {
      var m: map<char, Tc4> := map[];
      m := m[' ' := Tc4.NA];
      m := m['I' := Tc4.OddLotTrade];
      m := m['M' := Tc4.OClosePrice];
      m := m['Q' := Tc4.OOpenPrice];
      m := m['V' := Tc4.ContTrade];
      m := m['P' := Tc4.PriorRefPrice];
      m := m['W' := Tc4.WeightedAvgPrice];
      assert m.Keys == {' ', 'I', 'M', 'Q', 'V', 'P', 'W'};
      table := m;
    }

    /** Looks a character up, without changing the table. */
    function Get(key: char): (r: Option<Tc4>)
      requires Valid()
      ensures r.Some? <==> key in {' ', 'I', 'M', 'Q', 'V', 'P', 'W'}
      ensures r.Some? ==> Tc4Code(r.value) == key
    {
      Tc4TableCodes();
      if key in table then Some(table[key]) else None
    }
  }

  /** Distinct variants have distinct codes, so a lookup's variant is fixed by its key. */
  lemma CodesInjective(a: Tc2, b: Tc2, c: Tc4, d: Tc4)
    ensures Tc2Code(a) == Tc2Code(b) ==> a == b
    ensures Tc4Code(c) == Tc4Code(d) ==> c == d
  {
  }

  /** The tables' own test vectors for the codes the dispatcher filters on. */
  method FilterCodesScenario() returns (o: Option<Tc2>, six: Option<Tc2>, m: Option<Tc4>, q: Option<Tc4>, x: Option<Tc4>)
    ensures o == Some(MCO) && six == Some(MCCT)
    ensures m == Some(OClosePrice) && q == Some(OOpenPrice) && x == None
  {
    var tc2 := new Tc2Map();
    var tc4 := new Tc4Map();
    o := tc2.Get('O');
    six := tc2.Get('6');
    m := tc4.Get('M');
    q := tc4.Get('Q');
    x := tc4.Get('X');
    CodesInjective(o.value, MCO, m.value, OClosePrice);
    CodesInjective(six.value, MCCT, q.value, OOpenPrice);
  }
}
