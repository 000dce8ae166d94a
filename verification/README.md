# Barcode scanner: symbology mapping and result normalisation

A Dafny model of the logic shared by the two native front-ends of a Flutter
barcode-scanning plugin: the Android activity that drives a ZXing scanner view
and the iOS view controller that drives an AVFoundation-based scanner. Both
translate between the plugin's protocol symbology enumeration and the native
engine's symbologies with a static table, translate the configured restriction
list into native formats, and turn detections, cancels, start errors and
permission answers into one normalised scan result.

Modules:

- `Wrappers` — `Option`, for Kotlin's nullable and Swift's optional values.
- `Protocol` — the protocol's `BarcodeFormat` (constructors in PascalCase:
  `Unknown`, `Aztec`, …, `Interleaved2of5`, …), `ResultType`, the flat
  `ScanResult` message, the decoded `Configuration`, and `Normalised`, the shape
  every built result has (a format note only on a barcode of unknown format; no
  format on an error or a cancel).
- `Lookup` — generic table operations: `ToMap` (the map a table literal
  denotes), `FirstKey` (reverse lookup: the first entry in table order whose
  value matches), `ReverseOr` (reverse lookup with the `unknown` fallback),
  `FilterMap` (the order-preserving translation that drops unmapped keys), and
  the lemmas about them.
- `Restriction` — `ScannerFormats`: all formats, or only a non-empty list.
- `Zxing`, `AvFoundation` — the native symbologies, including ones the protocol
  has no counterpart for (`Codabar`, `UpcA`, `Rss14`, …; `Code39Mod43`, `Itf14`,
  `Face`), with their names (`toString()` of the Java enumeration, `rawValue` of
  the Swift type) and the inverse parsers.
- `AndroidScanner`, `IosScanner` — each front-end's table (as the ordered entry
  list of the source, used forwards as a map), reverse lookup, result
  construction and restriction translation; on iOS also cancel, start error,
  permission callback and camera selection.
- `FrontEnds` — the two tables know the same protocol formats.

Each table is written once, as the list of entries in declaration order;
Kotlin's `mapOf` iterates in that order, which is the order `firstOrNull`
searches. Swift's dictionary iteration order is unspecified, so
`IosScanner.ReverseLookupAnyOrder` proves every ordering of the entries yields
the same reverse lookup.

Points to note about the code:

- The result is the flat protocol message (type, format, format note, raw
  content) that the builders fill in; fields a builder does not set keep their
  defaults (`Unknown`, empty strings).
- On Android the note for an unmapped symbology is the Java enumeration
  constant's name, for example `"CODABAR"`.
- On iOS a permission denial reports an error code to the delegate
  (`didFailWithErrorCode`) rather than a scan result; on the simulator a denial
  reports nothing at all.
- Neither front-end guards against reporting a second result.
- The Android activity does not read `useCamera`; only iOS selects a camera.

## Model

| member | source | states |
|---|---|---|
| Lookup.ToMap | android/src/main/kotlin/de/mintware/barcode_scan/BarcodeScannerActivity.kt:28-40 | the map of a table has exactly the table's keys and values, and maps every entry's key to that entry's value |
| Lookup.FirstKey | android/src/main/kotlin/de/mintware/barcode_scan/BarcodeScannerActivity.kt:97-98 | the reverse lookup finds nothing exactly when no entry holds the value, and otherwise returns the key of the first entry, in table order, holding it |
| Lookup.ReverseLookupUnique | android/src/main/kotlin/de/mintware/barcode_scan/BarcodeScannerActivity.kt:97-98 | when no value is repeated, the reverse lookup of any entry's value is that entry's key (the unique preimage) |
| Lookup.ReverseLookupOrderIndependent | ios/Classes/BarcodeScannerViewController.swift:146 | when no value is repeated, searching the entries in any order (any permutation) finds the same key |
| Lookup.RoundTrip | android/src/main/kotlin/de/mintware/barcode_scan/BarcodeScannerActivity.kt:97-98 | forward then reverse lookup returns the key; the reverse lookup fails exactly for values the map does not hold |
| Lookup.ToMapInjective | android/src/main/kotlin/de/mintware/barcode_scan/BarcodeScannerActivity.kt:28-40 | a table without repeated keys or values denotes an injective map |
| Lookup.ToMapSize | ios/Classes/BarcodeScannerViewController.swift:26-38 | a table without repeated keys has as many map entries as entries |
| Lookup.ReverseOr | android/src/main/kotlin/de/mintware/barcode_scan/BarcodeScannerActivity.kt:97-98 | the reverse lookup with fallback gives the fallback exactly when the value is not in the map, and otherwise a key mapped to the value |
| Lookup.FilterMap | android/src/main/kotlin/de/mintware/barcode_scan/BarcodeScannerActivity.kt:118-131 | the translated list is never longer than the restriction list |
| Lookup.FilterMapContents | android/src/main/kotlin/de/mintware/barcode_scan/BarcodeScannerActivity.kt:121-128 | every output is the image of some mapped input, every mapped input's image is in the output, and the output is empty exactly when no input is mapped (unmapped entries are dropped without error) |
| Lookup.FilterMapAppend | android/src/main/kotlin/de/mintware/barcode_scan/BarcodeScannerActivity.kt:121-128 | translating a concatenation translates the parts one after the other |
| Lookup.FilterMapKeepsOrder | ios/Classes/BarcodeScannerViewController.swift:186-190 | the output is the images of exactly the mapped positions, in strictly increasing position order |
| Lookup.FilterMapSameKeys | ios/Classes/BarcodeScannerViewController.swift:186-190 | two tables with the same keys keep the same number of entries of any list |
| Restriction.Restrict | android/src/main/kotlin/de/mintware/barcode_scan/BarcodeScannerActivity.kt:57-60 | an empty translated list leaves the scanner unrestricted; a non-empty one restricts it to exactly that list |
| Zxing.ValueOf | android/src/main/kotlin/de/mintware/barcode_scan/BarcodeScannerActivity.kt:102 | a string parses to a native format exactly when it is that format's name, so names are distinct |
| AvFoundation.FromRawValue | ios/Classes/BarcodeScannerViewController.swift:151 | a string parses to a native type exactly when it is that type's raw value, so raw values are distinct |
| AndroidScanner.FormatEntriesWellFormed | android/src/main/kotlin/de/mintware/barcode_scan/BarcodeScannerActivity.kt:28-40 | the Android table repeats no key and no value, and `unknown` is not a key |
| AndroidScanner.FormatMapInjective | android/src/main/kotlin/de/mintware/barcode_scan/BarcodeScannerActivity.kt:28-40 | the Android table is injective and has 11 entries |
| AndroidScanner.FormatMapKeys | android/src/main/kotlin/de/mintware/barcode_scan/BarcodeScannerActivity.kt:28-40 | the Android table knows every protocol format except `unknown` |
| AndroidScanner.FormatOf | android/src/main/kotlin/de/mintware/barcode_scan/BarcodeScannerActivity.kt:97-98 | a ZXing format yields `unknown` exactly when it is not a table value, and otherwise a key the table maps to it |
| AndroidScanner.FormatRoundTrip | android/src/main/kotlin/de/mintware/barcode_scan/BarcodeScannerActivity.kt:97-98 | reverse-looking-up a table value yields its key, and the reverse lookup yields a format exactly when that format maps to the native format, or `unknown` when none does |
| AndroidScanner.HandleResult | android/src/main/kotlin/de/mintware/barcode_scan/BarcodeScannerActivity.kt:84-111 | no detection gives an `Error` with format `unknown` and "No data was scanned"; a detection gives a `Barcode` with its text, a mapped format with empty note, or `unknown` with the format's name as note; every result is normalised |
| AndroidScanner.ResultKeepsNativeFormat | android/src/main/kotlin/de/mintware/barcode_scan/BarcodeScannerActivity.kt:97-103 | the detected ZXing format can always be recovered from the result's format and note |
| AndroidScanner.MapRestrictedBarcodeTypes | android/src/main/kotlin/de/mintware/barcode_scan/BarcodeScannerActivity.kt:118-131 | the loop that appends the image of each mapped entry computes the order-preserving filter-map |
| AndroidScanner.SetupScannerView | android/src/main/kotlin/de/mintware/barcode_scan/BarcodeScannerActivity.kt:55-60 | the scanner stays unrestricted exactly when no restriction entry is mapped, and is otherwise restricted to the translated list |
| AndroidScanner.QrDetection | android/src/main/kotlin/de/mintware/barcode_scan/BarcodeScannerActivity.kt:97-110 | a QR detection of "HELLO" reports a `qr` barcode with empty note and content "HELLO" |
| AndroidScanner.CodabarDetection | android/src/main/kotlin/de/mintware/barcode_scan/BarcodeScannerActivity.kt:97-110 | a Codabar detection of "123" reports an `unknown` barcode with note "CODABAR" |
| AndroidScanner.RestrictionDegrades | android/src/main/kotlin/de/mintware/barcode_scan/BarcodeScannerActivity.kt:118-131 | `[qr, unknown]` translates to QR only, and a list of unmapped entries translates to nothing |
| IosScanner.FormatEntriesWellFormed | ios/Classes/BarcodeScannerViewController.swift:26-38 | the iOS table repeats no key and no value, and `unknown` is not a key |
| IosScanner.FormatMapInjective | ios/Classes/BarcodeScannerViewController.swift:26-38 | the iOS table is injective and has 11 entries |
| IosScanner.FormatMapKeys | ios/Classes/BarcodeScannerViewController.swift:26-38 | the iOS table knows every protocol format except `unknown` |
| IosScanner.ReverseLookupAnyOrder | ios/Classes/BarcodeScannerViewController.swift:146 | whatever order the dictionary is searched in, the reverse lookup finds the same key |
| IosScanner.FormatOf | ios/Classes/BarcodeScannerViewController.swift:146-150 | a detected type yields `unknown` exactly when it is not a table value, and otherwise a key the table maps to it |
| IosScanner.FormatRoundTrip | ios/Classes/BarcodeScannerViewController.swift:146 | reverse-looking-up a table value yields its key; the reverse lookup yields a format exactly when that format maps to the type, or `unknown` when none does |
| IosScanner.ResultForCode | ios/Classes/BarcodeScannerViewController.swift:146-152 | a code gives a `Barcode` whose content is the decoded string or "" when absent, whose format is the type's key or `unknown`, and whose note is the type's raw value exactly when the format is `unknown` |
| IosScanner.ResultKeepsNativeType | ios/Classes/BarcodeScannerViewController.swift:146-152 | the detected type can always be recovered from the result's format and note |
| IosScanner.OnCodes | ios/Classes/BarcodeScannerViewController.swift:144-156 | an absent or empty batch produces no result and no stop; otherwise the scanner stops and the first code alone produces the result |
| IosScanner.CancelResult | ios/Classes/BarcodeScannerViewController.swift:166-171 | a cancel reports a `Cancelled` result with format `unknown` and no content |
| IosScanner.StartScan | ios/Classes/BarcodeScannerViewController.swift:157-163 | starting reports a result exactly when it throws, and then an `Error` with format `unknown` carrying the error's description |
| IosScanner.OnPermission | ios/Classes/BarcodeScannerViewController.swift:87-95 | a grant starts scanning; a denial fails with "PERMISSION_NOT_GRANTED" exactly off the simulator, and does nothing on it |
| IosScanner.CameraFromConfig | ios/Classes/BarcodeScannerViewController.swift:195-197 | the front camera is chosen exactly when `useCamera` is 1; every other value chooses the back camera |
| IosScanner.MapRestrictedBarcodeTypes | ios/Classes/BarcodeScannerViewController.swift:183-193 | the translated list has one raw value per kept entry, and each parses back to the image of that entry, in order |
| IosScanner.ScannerFor | ios/Classes/BarcodeScannerViewController.swift:68-75 | the unrestricted scanner is built exactly when no restriction entry is mapped; otherwise the scanner is restricted to the translated raw values |
| IosScanner.DefaultConfigurationScansAll | ios/Classes/BarcodeScannerViewController.swift:16-24 | the default configuration (`useCamera` -1, no restriction) scans every symbology with the back camera |
| IosScanner.QrRestriction | ios/Classes/BarcodeScannerViewController.swift:68-75 | with `useCamera` 1 and `[qr]`, the front camera is used and the scanner is restricted to "org.iso.QRCode" |
| IosScanner.QrDetection | ios/Classes/BarcodeScannerViewController.swift:144-152 | a QR code reading "HELLO" stops the scanner and reports a `qr` barcode with empty note and content "HELLO" |
| FrontEnds.SameFormatsKnown | ios/Classes/BarcodeScannerViewController.swift:26-38 | both tables know the same protocol formats, so a restriction list leaves both scanners unrestricted or neither, and keeps as many entries on both |

## Left out

- Camera start and stop, preview views, the overlay, navigation-bar styling, the
  close button and the asynchronous permission request: native I/O and UI. Only
  the decision taken on the permission callback's boolean is modelled, and
  whether the code runs on the simulator is a parameter.
- `ScannerOverlay` and `calculateScanRect`: the implementation is not part of
  this model, and it is floating-point rectangle geometry.
- Decoding and encoding of the protocol messages, the intent and delegate
  plumbing and `dismiss`/`finish`: the configuration is an already-decoded record
  and the result is the built message.
- `aspectTolerance`, `setAutoFocus` and `autoEnableFlash`: engine tuning and
  flash control with no effect on the modelled decisions.
- Pausing and resuming the Android camera, and stopping a running scanner in
  `viewDidAppear`: lifecycle I/O.
- The diagnostic the Android translation prints for each unmapped restriction
  entry: a logging effect with no influence on the translated list.
- `restrictFormatList.filterNotNull()`: a Dafny sequence holds no nulls; protocol
  values a newer peer might send that this enumeration does not know are not
  modelled.
- The raw values of the AVFoundation types and the names of the ZXing constants
  come from those frameworks, not from the plugin's source.
- Lookup.FilterMap: its own contract only bounds the length; what it keeps and
  in which order is stated by `FilterMapContents` and `FilterMapKeepsOrder`.
