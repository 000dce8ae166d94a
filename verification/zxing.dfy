/** The native symbology enumeration of the Android decoding engine (ZXing),
    including the symbologies that the protocol has no counterpart for. */
module Zxing {
  import opened Wrappers

  datatype BarcodeFormat =
    | Aztec
    | Codabar
    | Code39
    | Code93
    | Code128
    | DataMatrix
    | Ean8
    | Ean13
    | Itf
    | Maxicode
    | Pdf417
    | QrCode
    | Rss14
    | RssExpanded
    | UpcA
    | UpcE
    | UpcEanExtension

  /** The enumeration constant's name, which is what its `toString()` yields. */
  function Name(f: BarcodeFormat): (s: string)
    ensures |s| > 0
  {
    match f
    case Aztec => "AZTEC"
    case Codabar => "CODABAR"
    case Code39 => "CODE_39"
    case Code93 => "CODE_93"
    case Code128 => "CODE_128"
    case DataMatrix => "DATA_MATRIX"
    case Ean8 => "EAN_8"
    case Ean13 => "EAN_13"
    case Itf => "ITF"
    case Maxicode => "MAXICODE"
    case Pdf417 => "PDF_417"
    case QrCode => "QR_CODE"
    case Rss14 => "RSS_14"
    case RssExpanded => "RSS_EXPANDED"
    case UpcA => "UPC_A"
    case UpcE => "UPC_E"
    case UpcEanExtension => "UPC_EAN_EXTENSION"
  }

  /** The constant with the given name, if any: the model's inverse of `Name`,
      used to recover a detection's format from a result's note; it shows that
      no two constants share a name. */
  function ValueOf(s: string): (r: Option<BarcodeFormat>)
    ensures forall f :: r == Some(f) <==> Name(f) == s
  {
    if s == "AZTEC" then Some(Aztec)
    else if s == "CODABAR" then Some(Codabar)
    else if s == "CODE_39" then Some(Code39)
    else if s == "CODE_93" then Some(Code93)
    else if s == "CODE_128" then Some(Code128)
    else if s == "DATA_MATRIX" then Some(DataMatrix)
    else if s == "EAN_8" then Some(Ean8)
    else if s == "EAN_13" then Some(Ean13)
    else if s == "ITF" then Some(Itf)
    else if s == "MAXICODE" then Some(Maxicode)
    else if s == "PDF_417" then Some(Pdf417)
    else if s == "QR_CODE" then Some(QrCode)
    else if s == "RSS_14" then Some(Rss14)
    else if s == "RSS_EXPANDED" then Some(RssExpanded)
    else if s == "UPC_A" then Some(UpcA)
    else if s == "UPC_E" then Some(UpcE)
    else if s == "UPC_EAN_EXTENSION" then Some(UpcEanExtension)
    else None
  }

  /** One detection of the decoding engine: the decoded text and its symbology. */
  datatype Result = Result(text: string, barcodeFormat: BarcodeFormat)
}
