/** The Android front-end: the activity that drives the ZXing scanner view. */
module AndroidScanner {
  import opened Wrappers
  import opened Protocol
  import opened Lookup
  import opened Restriction
  import Zxing

  /** The format table, in declaration order. */
  const FormatEntries: seq<(BarcodeFormat, Zxing.BarcodeFormat)> := [
    (Aztec, Zxing.Aztec),
    (Code39, Zxing.Code39),
    (Code93, Zxing.Code93),
    (Code128, Zxing.Code128),
    (DataMatrix, Zxing.DataMatrix),
    (Ean8, Zxing.Ean8),
    (Ean13, Zxing.Ean13),
    (Interleaved2of5, Zxing.Itf),
    (Pdf417, Zxing.Pdf417),
    (Qr, Zxing.QrCode),
    (Upce, Zxing.UpcE)
  ]

  /** The format table used forwards. */
  const FormatMap: map<BarcodeFormat, Zxing.BarcodeFormat> := ToMap(FormatEntries)

  /** The text of the error result for a missing detection. */
  const NoDataMessage: string := "No data was scanned"

  /** The table repeats no key. */
  lemma FormatKeysDistinct()
    ensures KeysDistinct(FormatEntries)
  {
  }

  /** The table repeats no value. */
  lemma FormatValuesDistinct()
    ensures ValuesDistinct(FormatEntries)
  {
  }

  /** The table has no repeated key and no repeated value, and `Unknown` is not among its keys. */
  lemma FormatEntriesWellFormed()
    ensures KeysDistinct(FormatEntries) && Functional(FormatEntries) && Injective(FormatEntries)
    ensures forall i :: 0 <= i < |FormatEntries| ==> FormatEntries[i].0 != Unknown
  {
    FormatKeysDistinct();
    FormatValuesDistinct();
    DistinctEntries(FormatEntries);
  }

  /** The forward table is injective and has eleven entries. */
  lemma FormatMapInjective()
    ensures MapInjective(FormatMap)
    ensures |FormatMap| == 11
  {
    FormatEntriesWellFormed();
    ToMapInjective(FormatEntries);
    ToMapSize(FormatEntries);
  }

  /** The forward table knows every protocol format except `Unknown`. */
  lemma FormatMapKeys()
    ensures forall f :: f in FormatMap <==> f != Unknown
  {
    forall f
      ensures f in FormatMap <==> f != Unknown
    {
      if f != Unknown {
        var i := match f
          case Aztec => 0 case Code39 => 1 case Code93 => 2 case Code128 => 3
          case DataMatrix => 4 case Ean8 => 5 case Ean13 => 6 case Interleaved2of5 => 7
          case Pdf417 => 8 case Qr => 9 case Upce => 10;
        assert FormatEntries[i].0 == f;
      }
    }
  }

  /** The protocol format of a detected native format: the first key of the
      table whose value it is, or `Unknown` when no key has it. */
  function FormatOf(n: Zxing.BarcodeFormat): (f: BarcodeFormat)
    ensures f != Unknown <==> n in FormatMap.Values
    ensures f != Unknown ==> f in FormatMap && FormatMap[f] == n
  {
    FormatEntriesWellFormed();
    ReverseOr(FormatEntries, n, Unknown)
  }

  /** Looking a protocol format up forwards and the result backwards gives the
      format back: the reverse lookup is the unique preimage. */
  lemma FormatRoundTrip(f: BarcodeFormat, n: Zxing.BarcodeFormat)
    ensures f in FormatMap ==> FormatOf(FormatMap[f]) == f
    ensures FormatOf(n) == f <==>
      (f in FormatMap && FormatMap[f] == n) || (f == Unknown && n !in FormatMap.Values)
  {
    FormatMapInjective();
  }

  /** The result the activity reports for a detection, or for its absence. */
  function HandleResult(result: Option<Zxing.Result>): (r: ScanResult)
    ensures Normalised(r)
    ensures result.None? ==> r.kind == Error && r.format == Unknown && r.rawContent == NoDataMessage
    ensures result.Some? ==> r.kind == Barcode && r.rawContent == result.value.text
    ensures result.Some? ==> (r.format == Unknown <==> result.value.barcodeFormat !in FormatMap.Values)
    ensures result.Some? && r.format != Unknown ==>
      r.format in FormatMap && FormatMap[r.format] == result.value.barcodeFormat && r.formatNote == ""
    ensures result.Some? && r.format == Unknown ==> r.formatNote == Zxing.Name(result.value.barcodeFormat)
  {
    match result
    case None => ScanResult(Error, Unknown, "", NoDataMessage)
    case Some(res) =>
      var format := FormatOf(res.barcodeFormat);
      var formatNote := if format == Unknown then Zxing.Name(res.barcodeFormat) else "";
      ScanResult(Barcode, format, formatNote, res.text)
  }

  /** The native format a reported barcode result stands for: the table's
      value for a known format, otherwise the constant the note names. */
  function NativeFormatOf(r: ScanResult): Option<Zxing.BarcodeFormat> {
    if r.format in FormatMap then Some(FormatMap[r.format]) else Zxing.ValueOf(r.formatNote)
  }

  /** No detection information is dropped: the native format of every detection
      can be recovered from the result's format and note. */
  lemma ResultKeepsNativeFormat(res: Zxing.Result)
    ensures NativeFormatOf(HandleResult(Some(res))) == Some(res.barcodeFormat)
  {
    var r := HandleResult(Some(res));
    if r.format == Unknown {
      FormatMapKeys();
      assert Unknown !in FormatMap;
      assert Zxing.ValueOf(r.formatNote) == Some(res.barcodeFormat);
    }
  }

  /** The translation of the configured restriction list, entry by entry. */
  method MapRestrictedBarcodeTypes(restrictFormat: seq<BarcodeFormat>) returns (types: seq<Zxing.BarcodeFormat>)
    ensures types == FilterMap(FormatMap, restrictFormat)
  {
    types := [];
    var i := 0;
    while i < |restrictFormat|
      invariant 0 <= i <= |restrictFormat|
      invariant types == FilterMap(FormatMap, restrictFormat[..i])
    {
      var format := restrictFormat[i];
      FilterMapAppend(FormatMap, restrictFormat[..i], [format]);
      assert restrictFormat[..i + 1] == restrictFormat[..i] + [format];
      if format in FormatMap {
        types := types + [FormatMap[format]];
      }
      i := i + 1;
    }
    assert restrictFormat[..i] == restrictFormat;
  }

  /** The symbologies the scanner view is set up with: restricted to the
      translated list when it is non-empty, otherwise left at all formats. */
  method SetupScannerView(config: Configuration) returns (formats: ScannerFormats<Zxing.BarcodeFormat>)
    ensures formats.AllFormats? <==> forall f :: f in config.restrictFormat ==> f !in FormatMap
    ensures formats.OnlyFormats? ==> formats.formats == FilterMap(FormatMap, config.restrictFormat)
  {
    var restrictedFormats := MapRestrictedBarcodeTypes(config.restrictFormat);
    FilterMapContents(FormatMap, config.restrictFormat);
    formats := Restrict(restrictedFormats);
  }

  /** A QR detection of "HELLO" reports a QR barcode with an empty note. */
  lemma QrDetection()
    ensures HandleResult(Some(Zxing.Result("HELLO", Zxing.QrCode))) == ScanResult(Barcode, Qr, "", "HELLO")
  {
    assert FormatEntries[9] == (Qr, Zxing.QrCode);
    FormatRoundTrip(Qr, Zxing.QrCode);
  }

  /** A Codabar detection, which the table does not know, reports `Unknown`
      with the engine's name of the symbology as the note. */
  lemma CodabarDetection()
    ensures HandleResult(Some(Zxing.Result("123", Zxing.Codabar))) == ScanResult(Barcode, Unknown, "CODABAR", "123")
  {
    assert Zxing.Codabar !in FormatMap.Values;
  }

  /** A restriction list with one mapped and one unmapped entry restricts to the
      mapped one; a list of unmapped entries only restricts nothing. */
  lemma RestrictionDegrades()
    ensures FilterMap(FormatMap, [Qr, Unknown]) == [Zxing.QrCode]
    ensures FilterMap(FormatMap, [Unknown, Unknown]) == []
  {
    FormatMapKeys();
    assert FormatEntries[9] == (Qr, Zxing.QrCode);
    assert [Qr, Unknown][1..] == [Unknown];
    assert [Unknown, Unknown][1..] == [Unknown];
    assert [Unknown][1..] == [];
  }
}
