/** What the two front-ends have in common. */
module FrontEnds {
  import opened Protocol
  import opened Lookup
  import AndroidScanner
  import IosScanner

  /** Both tables know exactly the same protocol formats, so a configuration's
      restriction list leaves both scanners unrestricted or neither, and keeps
      the same number of entries on both. */
  lemma SameFormatsKnown(config: Configuration)
    ensures forall f :: f in AndroidScanner.FormatMap <==> f in IosScanner.FormatMap
    ensures IosScanner.ScannerFor(config).AllFormats? <==>
      forall f :: f in config.restrictFormat ==> f !in AndroidScanner.FormatMap
    ensures |IosScanner.MapRestrictedBarcodeTypes(config.restrictFormat)| ==
      |FilterMap(AndroidScanner.FormatMap, config.restrictFormat)|
  {
    AndroidScanner.FormatMapKeys();
    IosScanner.FormatMapKeys();
    FilterMapSameKeys(AndroidScanner.FormatMap, IosScanner.FormatMap, config.restrictFormat);
  }
}
