/** The native symbology type of the iOS capture framework (AVFoundation's
    metadata object types), including types the protocol has no counterpart for. */
module AvFoundation {
  import opened Wrappers

  datatype ObjectType =
    | Aztec
    | Code39
    | Code39Mod43
    | Code93
    | Code128
    | DataMatrix
    | Ean8
    | Ean13
    | Interleaved2of5
    | Itf14
    | Pdf417
    | Qr
    | Upce
    | Face

  /** The type's raw string value, as the framework defines it. */
  function RawValue(t: ObjectType): (s: string)
    ensures |s| > 0
  {
    match t
    case Aztec => "org.iso.Aztec"
    case Code39 => "org.iso.Code39"
    case Code39Mod43 => "org.iso.Code39Mod43"
    case Code93 => "com.intermec.Code93"
    case Code128 => "org.iso.Code128"
    case DataMatrix => "org.iso.DataMatrix"
    case Ean8 => "org.gs1.EAN-8"
    case Ean13 => "org.gs1.EAN-13"
    case Interleaved2of5 => "org.ansi.Interleaved2of5"
    case Itf14 => "org.gs1.ITF14"
    case Pdf417 => "org.iso.PDF417"
    case Qr => "org.iso.QRCode"
    case Upce => "org.gs1.UPC-E"
    case Face => "face"
  }

  /** The type with the given raw value, if any: the model's inverse of
      `RawValue`, used to recover a detection's type from a result's note; it
      shows that no two types share a raw value. */
  function FromRawValue(s: string): (r: Option<ObjectType>)
    ensures forall t :: r == Some(t) <==> RawValue(t) == s
  {
    if s == "org.iso.Aztec" then Some(Aztec)
    else if s == "org.iso.Code39" then Some(Code39)
    else if s == "org.iso.Code39Mod43" then Some(Code39Mod43)
    else if s == "com.intermec.Code93" then Some(Code93)
    else if s == "org.iso.Code128" then Some(Code128)
    else if s == "org.iso.DataMatrix" then Some(DataMatrix)
    else if s == "org.gs1.EAN-8" then Some(Ean8)
    else if s == "org.gs1.EAN-13" then Some(Ean13)
    else if s == "org.ansi.Interleaved2of5" then Some(Interleaved2of5)
    else if s == "org.gs1.ITF14" then Some(Itf14)
    else if s == "org.iso.PDF417" then Some(Pdf417)
    else if s == "org.iso.QRCode" then Some(Qr)
    else if s == "org.gs1.UPC-E" then Some(Upce)
    else if s == "face" then Some(Face)
    else None
  }

  /** One detected machine-readable code: its type and its decoded string, if any. */
  datatype MetadataCode = MetadataCode(codeType: ObjectType, stringValue: Option<string>)
}
