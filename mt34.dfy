/**
 * Field decoders of the Security Status message, type 34 of the NYSE TAQ Pillar
 * Products Client Specification v2.3i (src/nyse/mt34.rs).
 */
module Mt34 {

  datatype SSRTexID =
    NYSE | NYSEArca | NYSENational | NASDAQ | NYSEAmerican | NASDAQOMXBX | FINRA | ISE |
    EDGA | EDGX | LTSE | NYSEChicago | CTS | NASDAQOMX | IEX | CBSX | NASDAQOMXPSX |
    CBOEBYX | CBOEBZX | Error

  /** The letter of each SSR triggering exchange. */
  function SSRTexIDCode(v: SSRTexID): string
    requires v != SSRTexID.Error
  {
    match v
    case NYSE => "N"
    case NYSEArca => "P"
    case NYSENational => "C"
    case NASDAQ => "Q"
    case NYSEAmerican => "A"
    case NASDAQOMXBX => "B"
    case FINRA => "D"
    case ISE => "I"
    case EDGA => "J"
    case EDGX => "K"
    case LTSE => "L"
    case NYSEChicago => "M"
    case CTS => "S"
    case NASDAQOMX => "T"
    case IEX => "V"
    case CBSX => "W"
    case NASDAQOMXPSX => "X"
    case CBOEBYX => "Y"
    case CBOEBZX => "Z"
  }

  /** `SSRTexID::get`: decodes the SSR Triggering Exchange ID; `Error` for any other text. 'C' is NYSE National only (NSX, which shares the letter, is dropped). */
  function GetSSRTexID(id: string): (r: SSRTexID)
    ensures r != SSRTexID.Error ==> SSRTexIDCode(r) == id
    ensures r == SSRTexID.Error <==> id !in {"N", "P", "C", "Q", "A", "B", "D", "I", "J", "K", "L", "M", "S", "T", "V", "W", "X", "Y", "Z"}
  {
    if id == "N" then SSRTexID.NYSE
    else if id == "P" then SSRTexID.NYSEArca
    else if id == "C" then SSRTexID.NYSENational
    else if id == "Q" then SSRTexID.NASDAQ
    else if id == "A" then SSRTexID.NYSEAmerican
    else if id == "B" then SSRTexID.NASDAQOMXBX
    else if id == "D" then SSRTexID.FINRA
    else if id == "I" then SSRTexID.ISE
    else if id == "J" then SSRTexID.EDGA
    else if id == "K" then SSRTexID.EDGX
    else if id == "L" then SSRTexID.LTSE
    else if id == "M" then SSRTexID.NYSEChicago
    else if id == "S" then SSRTexID.CTS
    else if id == "T" then SSRTexID.NASDAQOMX
    else if id == "V" then SSRTexID.IEX
    else if id == "W" then SSRTexID.CBSX
    else if id == "X" then SSRTexID.NASDAQOMXPSX
    else if id == "Y" then SSRTexID.CBOEBYX
    else if id == "Z" then SSRTexID.CBOEBZX
    else SSRTexID.Error
  }

  /**
   * Every variant other than Error is decoded from its own code: with the decoder's
   * contract, codes and recognised variants are in one-to-one correspondence.
   */
  lemma SSRTexIDRoundTrip(v: SSRTexID)
    requires v != SSRTexID.Error
    ensures GetSSRTexID(SSRTexIDCode(v)) == v
  {
  }

  datatype SecurityStatus =
    Halt | Resume | SSRA | SSRC | SSRD | PreO | Beg | Early | Core | Late | Closed | PI
    | PreOPI | Error

  /** The code of each security status. */
  function SecurityStatusCode(v: SecurityStatus): string
    requires v != SecurityStatus.Error
  {
    match v
    case Halt => "4"
    case Resume => "5"
    case SSRA => "A"
    case SSRC => "C"
    case SSRD => "D"
    case PreO => "P"
    case Beg => "B"
    case Early => "E"
    case Core => "O"
    case Late => "L"
    case Closed => "X"
    case PI => "I"
    case PreOPI => "G"
  }

  /** `SecurityStatus::get`: decodes the Security Status field; `Error` for any other text. */
  function GetSecurityStatus(id: string): (r: SecurityStatus)
    ensures r != SecurityStatus.Error ==> SecurityStatusCode(r) == id
    ensures r == SecurityStatus.Error <==> id !in {"4", "5", "A", "C", "D", "P", "B", "E", "O", "L", "X", "I", "G"}
  {
    if id == "4" then SecurityStatus.Halt
    else if id == "5" then SecurityStatus.Resume
    else if id == "A" then SecurityStatus.SSRA
    else if id == "C" then SecurityStatus.SSRC
    else if id == "D" then SecurityStatus.SSRD
    else if id == "P" then SecurityStatus.PreO
    else if id == "B" then SecurityStatus.Beg
    else if id == "E" then SecurityStatus.Early
    else if id == "O" then SecurityStatus.Core
    else if id == "L" then SecurityStatus.Late
    else if id == "X" then SecurityStatus.Closed
    else if id == "I" then SecurityStatus.PI
    else if id == "G" then SecurityStatus.PreOPI
    else SecurityStatus.Error
  }

  /**
   * Every variant other than Error is decoded from its own code: with the decoder's
   * contract, codes and recognised variants are in one-to-one correspondence.
   */
  lemma SecurityStatusRoundTrip(v: SecurityStatus)
    requires v != SecurityStatus.Error
    ensures GetSecurityStatus(SecurityStatusCode(v)) == v
  {
  }

  datatype HaltCondition =
    NotDelayed | NewsRel | OrdImb | NewsPend | LULDPause | EquipChange | NOOpNoRes |
    AddlInfReq | RegCon | MergE | ETFMisPr | CorpA | NewOff | NoIntraDay | HaltL1 |
    HaltL2 | HaltL3 | Error

  /** The code of each halt condition. */
  function HaltConditionCode(v: HaltCondition): string
    requires v != HaltCondition.Error
  {
    match v
    case NotDelayed => "~"
    case NewsRel => "D"
    case OrdImb => "I"
    case NewsPend => "P"
    case LULDPause => "M"
    case EquipChange => "X"
    case NOOpNoRes => "Z"
    case AddlInfReq => "A"
    case RegCon => "C"
    case MergE => "E"
    case ETFMisPr => "F"
    case CorpA => "N"
    case NewOff => "O"
    case NoIntraDay => "V"
    case HaltL1 => "1"
    case HaltL2 => "2"
    case HaltL3 => "3"
  }

  /** `HaltCondition::get`: decodes the Halt Condition field; `Error` for any other text. */
  function GetHaltCondition(id: string): (r: HaltCondition)
    ensures r != HaltCondition.Error ==> HaltConditionCode(r) == id
    ensures r == HaltCondition.Error <==> id !in {"~", "D", "I", "P", "M", "X", "Z", "A", "C", "E", "F", "N", "O", "V", "1", "2", "3"}
  {
    if id == "~" then HaltCondition.NotDelayed
    else if id == "D" then HaltCondition.NewsRel
    else if id == "I" then HaltCondition.OrdImb
    else if id == "P" then HaltCondition.NewsPend
    else if id == "M" then HaltCondition.LULDPause
    else if id == "X" then HaltCondition.EquipChange
    else if id == "Z" then HaltCondition.NOOpNoRes
    else if id == "A" then HaltCondition.AddlInfReq
    else if id == "C" then HaltCondition.RegCon
    else if id == "E" then HaltCondition.MergE
    else if id == "F" then HaltCondition.ETFMisPr
    else if id == "N" then HaltCondition.CorpA
    else if id == "O" then HaltCondition.NewOff
    else if id == "V" then HaltCondition.NoIntraDay
    else if id == "1" then HaltCondition.HaltL1
    else if id == "2" then HaltCondition.HaltL2
    else if id == "3" then HaltCondition.HaltL3
    else HaltCondition.Error
  }

  /**
   * Every variant other than Error is decoded from its own code: with the decoder's
   * contract, codes and recognised variants are in one-to-one correspondence.
   */
  lemma HaltConditionRoundTrip(v: HaltCondition)
    requires v != HaltCondition.Error
    ensures GetHaltCondition(HaltConditionCode(v)) == v
  {
  }

  datatype SSRState =
    NoSSR | SSR | Error

  /** The code of each short-sale-restriction state. */
  function SSRStateCode(v: SSRState): string
    requires v != SSRState.Error
  {
    match v
    case NoSSR => "~"
    case SSR => "E"
  }

  /** `SSRState::get`: decodes the SSR State field; `Error` for any other text, a blank included. */
  function GetSSRState(id: string): (r: SSRState)
    ensures r != SSRState.Error ==> SSRStateCode(r) == id
    ensures r == SSRState.Error <==> id !in {"~", "E"}
  {
    if id == "~" then SSRState.NoSSR
    else if id == "E" then SSRState.SSR
    else SSRState.Error
  }

  /**
   * Every variant other than Error is decoded from its own code: with the decoder's
   * contract, codes and recognised variants are in one-to-one correspondence.
   */
  lemma SSRStateRoundTrip(v: SSRState)
    requires v != SSRState.Error
    ensures GetSSRState(SSRStateCode(v)) == v
  {
  }

  datatype MarketState =
    PreOp | EarlySess | CoreSEss | LateSess | Closed | Error

  /** The code of each market state. */
  function MarketStateCode(v: MarketState): string
    requires v != MarketState.Error
  {
    match v
    case PreOp => "P"
    case EarlySess => "E"
    case CoreSEss => "O"
    case LateSess => "L"
    case Closed => "X"
  }

  /** `MarketState::get`: decodes the Market State field; `Error` for any other text. */
  function GetMarketState(id: string): (r: MarketState)
    ensures r != MarketState.Error ==> MarketStateCode(r) == id
    ensures r == MarketState.Error <==> id !in {"P", "E", "O", "L", "X"}
  {
    if id == "P" then MarketState.PreOp
    else if id == "E" then MarketState.EarlySess
    else if id == "O" then MarketState.CoreSEss
    else if id == "L" then MarketState.LateSess
    else if id == "X" then MarketState.Closed
    else MarketState.Error
  }

  /**
   * Every variant other than Error is decoded from its own code: with the decoder's
   * contract, codes and recognised variants are in one-to-one correspondence.
   */
  lemma MarketStateRoundTrip(v: MarketState)
    requires v != MarketState.Error
    ensures GetMarketState(MarketStateCode(v)) == v
  {
  }

  /** The decoders' own test vectors for the SSR triggering exchange: 'C' is NYSE National, 'F' is unknown. */
  lemma SSRTexIDExamples()
    ensures GetSSRTexID("C") == NYSENational && GetSSRTexID("F") == SSRTexID.Error
  {
  }

  /** The decoders' own test vectors for the security status: 'G' is the pre-opening indication, 'H' is unknown. */
  lemma SecurityStatusExamples()
    ensures GetSecurityStatus("G") == PreOPI && GetSecurityStatus("H") == SecurityStatus.Error
  {
  }

  /** The decoders' own test vectors for the halt condition. */
  lemma HaltConditionExamples()
    ensures GetHaltCondition("~") == NotDelayed && GetHaltCondition("3") == HaltL3
    ensures GetHaltCondition("$") == HaltCondition.Error
  {
  }

  /** The decoders' own test vectors for the SSR state and the market state. */
  lemma StateExamples()
    ensures GetSSRState("~") == NoSSR && GetSSRState("E") == SSR && GetSSRState(" ") == SSRState.Error
    ensures GetMarketState("X") == MarketState.Closed && GetMarketState("A") == MarketState.Error
  {
  }
}
