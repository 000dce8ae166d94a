/** The messages exchanged between the host application and a scanner front-end:
    the symbology enumeration, the decoded configuration and the scan result. */
module Protocol {

  /** The protocol's symbology enumeration; `Unknown` is the fallback for a
      native symbology that has no counterpart. */
  datatype BarcodeFormat =
    | Unknown
    | Aztec
    | Code39
    | Code93
    | Ean8
    | Ean13
    | Code128
    | DataMatrix
    | Qr
    | Interleaved2of5
    | Upce
    | Pdf417

  /** The discriminator of a scan result. */
  datatype ResultType = Barcode | Cancelled | Error

  /** A scan result as the front-ends build it: a flat message whose fields a
      builder fills in; any field the builder leaves alone keeps its default
      (`Unknown` for the format, the empty string for the texts). */
  datatype ScanResult = ScanResult(kind: ResultType, format: BarcodeFormat, formatNote: string, rawContent: string)

  /** Android-only tuning carried by the configuration (the float aspect tolerance is not modelled). */
  datatype AndroidConfiguration = AndroidConfiguration(useAutoFocus: bool)

  /** The already-decoded configuration of one scan. */
  datatype Configuration = Configuration(
    strings: map<string, string>,
    restrictFormat: seq<BarcodeFormat>,
    useCamera: int,
    autoEnableFlash: bool,
    android: AndroidConfiguration)

  /** The shape every result the front-ends build has: a note only on a barcode
      of unknown format, and no format at all on an error or a cancel. */
  ghost predicate Normalised(r: ScanResult) {
    && (r.formatNote != "" ==> r.kind == Barcode && r.format == Unknown)
    && (r.kind != Barcode ==> r.format == Unknown)
  }
}
