/** The iOS front-end: the view controller that drives the capture-framework scanner. */
module IosScanner {
  import opened Wrappers
  import opened Protocol
  import opened Lookup
  import opened Restriction
  import AvFoundation

  /** The format table, in declaration order. */
  const FormatEntries: seq<(BarcodeFormat, AvFoundation.ObjectType)> := [
    (Aztec, AvFoundation.Aztec),
    (Code39, AvFoundation.Code39),
    (Code93, AvFoundation.Code93),
    (Code128, AvFoundation.Code128),
    (DataMatrix, AvFoundation.DataMatrix),
    (Ean8, AvFoundation.Ean8),
    (Ean13, AvFoundation.Ean13),
    (Interleaved2of5, AvFoundation.Interleaved2of5),
    (Pdf417, AvFoundation.Pdf417),
    (Qr, AvFoundation.Qr),
    (Upce, AvFoundation.Upce)
  ]

  /** The format table used forwards. */
  const FormatMap: map<BarcodeFormat, AvFoundation.ObjectType> := ToMap(FormatEntries)

  /** The error code reported when camera access is denied. */
  const PermissionNotGranted: string := "PERMISSION_NOT_GRANTED"

  /** The configuration the view controller holds until the host assigns one. */
  const DefaultConfiguration: Configuration := Configuration(
    map["cancel" := "Cancel", "flash_on" := "Flash on", "flash_off" := "Flash off"],
    [], -1, false, AndroidConfiguration(false))

  /** The table repeats no key. */
  lemma FormatKeysDistinct()
    ensures KeysDistinct(FormatEntries)
  {
  }

  /** The table repeats no value. */
  lemma FormatValuesDistinct()
    ensures ValuesDistinct(FormatEntries)
  {
  }

  /** The table has no repeated key and no repeated value, and `Unknown` is not among its keys. */
  lemma FormatEntriesWellFormed()
    ensures KeysDistinct(FormatEntries) && Functional(FormatEntries) && Injective(FormatEntries)
    ensures forall i :: 0 <= i < |FormatEntries| ==> FormatEntries[i].0 != Unknown
  {
    FormatKeysDistinct();
    FormatValuesDistinct();
    DistinctEntries(FormatEntries);
  }

  /** The forward table is injective and has eleven entries. */
  lemma FormatMapInjective()
    ensures MapInjective(FormatMap)
    ensures |FormatMap| == 11
  {
    FormatEntriesWellFormed();
    ToMapInjective(FormatEntries);
    ToMapSize(FormatEntries);
  }

  /** The forward table knows every protocol format except `Unknown`. */
  lemma FormatMapKeys()
    ensures forall f :: f in FormatMap <==> f != Unknown
  {
    forall f
      ensures f in FormatMap <==> f != Unknown
    {
      if f != Unknown {
        var i := match f
          case Aztec => 0 case Code39 => 1 case Code93 => 2 case Code128 => 3
          case DataMatrix => 4 case Ean8 => 5 case Ean13 => 6 case Interleaved2of5 => 7
          case Pdf417 => 8 case Qr => 9 case Upce => 10;
        assert FormatEntries[i].0 == f;
      }
    }
  }

  /** A dictionary is searched in an order the language leaves unspecified; since
      no two keys share a value, every order finds the same key. */
  lemma ReverseLookupAnyOrder(order: seq<(BarcodeFormat, AvFoundation.ObjectType)>, t: AvFoundation.ObjectType)
    requires multiset(order) == multiset(FormatEntries)
    ensures FirstKey(order, t) == FirstKey(FormatEntries, t)
  {
    FormatEntriesWellFormed();
    ReverseLookupOrderIndependent(FormatEntries, order, t);
  }

  /** The protocol format of a detected type: the key of the table whose value
      it is, or `Unknown` when no key has it. */
  function FormatOf(t: AvFoundation.ObjectType): (f: BarcodeFormat)
    ensures f != Unknown <==> t in FormatMap.Values
    ensures f != Unknown ==> f in FormatMap && FormatMap[f] == t
  {
    FormatEntriesWellFormed();
    ReverseOr(FormatEntries, t, Unknown)
  }

  /** Looking a protocol format up forwards and the result backwards gives the
      format back: the reverse lookup is the unique preimage. */
  lemma FormatRoundTrip(f: BarcodeFormat, t: AvFoundation.ObjectType)
    ensures f in FormatMap ==> FormatOf(FormatMap[f]) == f
    ensures FormatOf(t) == f <==>
      (f in FormatMap && FormatMap[f] == t) || (f == Unknown && t !in FormatMap.Values)
  {
    FormatMapInjective();
  }

  /** The result built for one detected code. */
  function ResultForCode(code: AvFoundation.MetadataCode): (r: ScanResult)
    ensures Normalised(r) && r.kind == Barcode
    ensures code.stringValue.Some? ==> r.rawContent == code.stringValue.value
    ensures code.stringValue.None? ==> r.rawContent == ""
    ensures r.format == Unknown <==> code.codeType !in FormatMap.Values
    ensures r.format != Unknown ==>
      r.format in FormatMap && FormatMap[r.format] == code.codeType && r.formatNote == ""
    ensures r.format == Unknown ==> r.formatNote == AvFoundation.RawValue(code.codeType)
  {
    var format := FormatOf(code.codeType);
    ScanResult(
      Barcode,
      format,
      if format == Unknown then AvFoundation.RawValue(code.codeType) else "",
      code.stringValue.GetOr(""))
  }

  /** The type a reported barcode result stands for: the table's value for a
      known format, otherwise the type whose raw value the note holds. */
  function NativeTypeOf(r: ScanResult): Option<AvFoundation.ObjectType> {
    if r.format in FormatMap then Some(FormatMap[r.format]) else AvFoundation.FromRawValue(r.formatNote)
  }

  /** No detection information is dropped: the type of every detected code can
      be recovered from the result's format and note. */
  lemma ResultKeepsNativeType(code: AvFoundation.MetadataCode)
    ensures NativeTypeOf(ResultForCode(code)) == Some(code.codeType)
  {
    var r := ResultForCode(code);
    if r.format == Unknown {
      FormatMapKeys();
      assert Unknown !in FormatMap;
      assert AvFoundation.FromRawValue(r.formatNote) == Some(code.codeType);
    }
  }

  /** What the result block does with one batch of detected codes. */
  datatype BatchOutcome = KeepScanning | StopAndReport(result: ScanResult)

  /** Only the first code of a batch produces a result, and it stops the
      scanner; an absent or empty batch changes nothing. */
  function OnCodes(codes: Option<seq<AvFoundation.MetadataCode>>): (o: BatchOutcome)
    ensures o.KeepScanning? <==> codes.None? || |codes.value| == 0
    ensures o.StopAndReport? ==> o.result == ResultForCode(codes.value[0])
  {
    match codes
    case None => KeepScanning
    case Some(cs) => if |cs| == 0 then KeepScanning else StopAndReport(ResultForCode(cs[0]))
  }

  /** The result reported when the user cancels. */
  function CancelResult(): (r: ScanResult)
    ensures Normalised(r) && r.kind == Cancelled && r.rawContent == ""
  {
    ScanResult(Cancelled, Unknown, "", "")
  }

  /** Starting the scanner either succeeds, after which results come from the
      result block, or throws, which reports an error carrying the thrown
      error's description. */
  function StartScan(thrown: Option<string>): (r: Option<ScanResult>)
    ensures r.Some? <==> thrown.Some?
    ensures r.Some? ==> Normalised(r.value) && r.value.kind == Error && r.value.rawContent == thrown.value
  {
    match thrown
    case None => None
    case Some(description) => Some(ScanResult(Error, Unknown, "", description))
  }

  /** What the controller does once the camera permission request answers. */
  datatype PermissionAction = StartScanning | FailWithErrorCode(code: string) | Ignore

  /** A grant starts the scan; a denial fails with the permission error code,
      except on the simulator, where it is ignored. */
  function OnPermission(granted: bool, simulator: bool): (a: PermissionAction)
    ensures a.StartScanning? <==> granted
    ensures a.FailWithErrorCode? <==> !granted && !simulator
    ensures a.FailWithErrorCode? ==> a.code == PermissionNotGranted
  {
    if granted then StartScanning
    else if simulator then Ignore
    else FailWithErrorCode(PermissionNotGranted)
  }

  /** The cameras the scanner can use. */
  datatype Camera = Front | Back

  /** Only `useCamera == 1` selects the front camera; every other value,
      including -1 (default) and 0, selects the back camera. */
  function CameraFromConfig(config: Configuration): (c: Camera)
    ensures c == Front <==> config.useCamera == 1
  {
    if config.useCamera == 1 then Front else Back
  }

  /** The restriction list translated to the raw values of the native types:
      the raw value of the image of every mapped entry, in order. */
  function MapRestrictedBarcodeTypes(restrictFormat: seq<BarcodeFormat>): (types: seq<string>)
    ensures |types| == |FilterMap(FormatMap, restrictFormat)|
    ensures forall j :: 0 <= j < |types| ==>
      AvFoundation.FromRawValue(types[j]) == Some(FilterMap(FormatMap, restrictFormat)[j])
  {
    var mapped := FilterMap(FormatMap, restrictFormat);
    seq(|mapped|, j requires 0 <= j < |mapped| => AvFoundation.RawValue(mapped[j]))
  }

  /** The scanner the controller builds: the unrestricted one when no restriction
      entry is mapped, otherwise one restricted to the translated list. */
  function ScannerFor(config: Configuration): (s: ScannerFormats<string>)
    ensures s.AllFormats? <==> forall f :: f in config.restrictFormat ==> f !in FormatMap
    ensures s.OnlyFormats? ==> s.formats == MapRestrictedBarcodeTypes(config.restrictFormat)
  {
    FilterMapContents(FormatMap, config.restrictFormat);
    Restrict(MapRestrictedBarcodeTypes(config.restrictFormat))
  }

  /** The default configuration scans every symbology with the back camera. */
  lemma DefaultConfigurationScansAll()
    ensures CameraFromConfig(DefaultConfiguration) == Back
    ensures ScannerFor(DefaultConfiguration) == AllFormats
  {
  }

  /** The table takes `qr` to the QR type. */
  lemma QrEntry()
    ensures Qr in FormatMap && FormatMap[Qr] == AvFoundation.Qr
  {
    assert FormatEntries[9] == (Qr, AvFoundation.Qr);
  }

  /** A configuration for the front camera restricted to QR uses the front
      camera and builds a scanner restricted to the QR type's raw value. */
  lemma QrRestriction()
    ensures var config := DefaultConfiguration.(useCamera := 1, restrictFormat := [Qr]);
      && CameraFromConfig(config) == Front
      && ScannerFor(config) == OnlyFormats(["org.iso.QRCode"])
  {
    QrEntry();
    assert FilterMap(FormatMap, [Qr]) == [AvFoundation.Qr] by {
      assert [Qr][1..] == [];
      assert FilterMap(FormatMap, [Qr]) == [FormatMap[Qr]] + FilterMap(FormatMap, []);
    }
    var types := MapRestrictedBarcodeTypes([Qr]);
    assert types == ["org.iso.QRCode"] by {
      assert |types| == 1;
      assert AvFoundation.FromRawValue(types[0]) == Some(AvFoundation.Qr);
    }
  }

  /** A QR code reading "HELLO" stops the scanner and reports a QR barcode with
      an empty note. */
  lemma QrDetection()
    ensures OnCodes(Some([AvFoundation.MetadataCode(AvFoundation.Qr, Some("HELLO"))]))
      == StopAndReport(ScanResult(Barcode, Qr, "", "HELLO"))
  {
    QrEntry();
    FormatRoundTrip(Qr, AvFoundation.Qr);
  }
}
