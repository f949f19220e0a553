/**
 * Field decoders of the Symbol Index Mapping message, type 3 of the NYSE TAQ Pillar
 * Products Client Specification v2.3i (src/nyse/mt3.rs).
 */
module Mt3 {

  datatype MarketID =
    NYSE | NYSEArcaEq | NYSEArcaOpt | NYSEBonds | NYSEAmexOpt | NYSEAmerEq | NYSENatEq |
    NYSEChiEq | Error

  /** The Market ID code of each market. */
  function MarketIdCode(v: MarketID): string
    requires v != MarketID.Error
  {
    match v
    case NYSE => "1"
    case NYSEArcaEq => "3"
    case NYSEArcaOpt => "4"
    case NYSEBonds => "5"
    case NYSEAmexOpt => "8"
    case NYSEAmerEq => "9"
    case NYSENatEq => "10"
    case NYSEChiEq => "11"
  }

  /** Decodes the Market ID field; `Error` for any other text. */
  function GetMarketId(id: string): (r: MarketID)
    ensures r != MarketID.Error ==> MarketIdCode(r) == id
    ensures r == MarketID.Error <==> id !in {"1", "3", "4", "5", "8", "9", "10", "11"}
  {
    if id == "1" then MarketID.NYSE
    else if id == "3" then MarketID.NYSEArcaEq
    else if id == "4" then MarketID.NYSEArcaOpt
    else if id == "5" then MarketID.NYSEBonds
    else if id == "8" then MarketID.NYSEAmexOpt
    else if id == "9" then MarketID.NYSEAmerEq
    else if id == "10" then MarketID.NYSENatEq
    else if id == "11" then MarketID.NYSEChiEq
    else MarketID.Error
  }

  /**
   * Every variant other than Error is decoded from its own code: with the decoder's
   * contract, codes and recognised variants are in one-to-one correspondence.
   */
  lemma MarketIdRoundTrip(v: MarketID)
    requires v != MarketID.Error
    ensures GetMarketId(MarketIdCode(v)) == v
  {
  }

  datatype SecurityType =
    ADR | ComStk | Deben | ETF | Foreign | ADShares | Units | IdxLnkdNotes | OtherBlank
    | OrdShrs | Pfd | Rights | SoBenInt | Test | CEF | IdxSec | War | Error

  /** The Security Type letter of each kind of security. */
  function SecurityTypeCode(v: SecurityType): string
    requires v != SecurityType.Error
  {
    match v
    case ADR => "A"
    case ComStk => "C"
    case Deben => "D"
    case ETF => "E"
    case Foreign => "F"
    case ADShares => "H"
    case Units => "I"
    case IdxLnkdNotes => "L"
    case OtherBlank => "M"
    case OrdShrs => "O"
    case Pfd => "P"
    case Rights => "R"
    case SoBenInt => "S"
    case Test => "T"
    case CEF => "U"
    case IdxSec => "X"
    case War => "Y"
  }

  /** Decodes the Security Type field; `Error` for any other text. */
  function GetSecurityType(id: string): (r: SecurityType)
    ensures r != SecurityType.Error ==> SecurityTypeCode(r) == id
    ensures r == SecurityType.Error <==> id !in {"A", "C", "D", "E", "F", "H", "I", "L", "M", "O", "P", "R", "S", "T", "U", "X", "Y"}
  {
    if id == "A" then SecurityType.ADR
    else if id == "C" then SecurityType.ComStk
    else if id == "D" then SecurityType.Deben
    else if id == "E" then SecurityType.ETF
    else if id == "F" then SecurityType.Foreign
    else if id == "H" then SecurityType.ADShares
    else if id == "I" then SecurityType.Units
    else if id == "L" then SecurityType.IdxLnkdNotes
    else if id == "M" then SecurityType.OtherBlank
    else if id == "O" then SecurityType.OrdShrs
    else if id == "P" then SecurityType.Pfd
    else if id == "R" then SecurityType.Rights
    else if id == "S" then SecurityType.SoBenInt
    else if id == "T" then SecurityType.Test
    else if id == "U" then SecurityType.CEF
    else if id == "X" then SecurityType.IdxSec
    else if id == "Y" then SecurityType.War
    else SecurityType.Error
  }

  /**
   * Every variant other than Error is decoded from its own code: with the decoder's
   * contract, codes and recognised variants are in one-to-one correspondence.
   */
  lemma SecurityTypeRoundTrip(v: SecurityType)
    requires v != SecurityType.Error
    ensures GetSecurityType(SecurityTypeCode(v)) == v
  {
  }

  datatype PriceResolution =
    AllPenny | PennyNickel | NickelDime | Error

  /** The Price Resolution code of each resolution. */
  function PriceResolutionCode(v: PriceResolution): string
    requires v != PriceResolution.Error
  {
    match v
    case AllPenny => "0"
    case PennyNickel => "1"
    case NickelDime => "5"
  }

  /** Decodes the Price Resolution field; `Error` for any other text. */
  function GetPriceResolution(id: string): (r: PriceResolution)
    ensures r != PriceResolution.Error ==> PriceResolutionCode(r) == id
    ensures r == PriceResolution.Error <==> id !in {"0", "1", "5"}
  {
    if id == "0" then PriceResolution.AllPenny
    else if id == "1" then PriceResolution.PennyNickel
    else if id == "5" then PriceResolution.NickelDime
    else PriceResolution.Error
  }

  /**
   * Every variant other than Error is decoded from its own code: with the decoder's
   * contract, codes and recognised variants are in one-to-one correspondence.
   */
  lemma PriceResolutionRoundTrip(v: PriceResolution)
    requires v != PriceResolution.Error
    ensures GetPriceResolution(PriceResolutionCode(v)) == v
  {
  }

  /** The decoders' own test vectors, including one unknown code for each. */
  lemma Mt3Examples()
    ensures GetMarketId("1") == NYSE && GetMarketId("10") == NYSENatEq && GetMarketId("12") == MarketID.Error
    ensures GetSecurityType("A") == ADR && GetSecurityType("Y") == War && GetSecurityType("Z") == SecurityType.Error
    ensures GetPriceResolution("0") == AllPenny && GetPriceResolution("5") == NickelDime
    ensures GetPriceResolution("6") == PriceResolution.Error
  {
  }
}
