/** How a front-end configures its scanner from the translated restriction list. */
module Restriction {

  /** Either the engine's full set of symbologies, or only the listed ones. */
  datatype ScannerFormats<T> = AllFormats | OnlyFormats(formats: seq<T>)

  /** An empty translated list means "do not restrict"; a non-empty one is
      handed to the scanner unchanged. */
  function Restrict<T>(mapped: seq<T>): (r: ScannerFormats<T>)
    ensures r.AllFormats? <==> mapped == []
    ensures r.OnlyFormats? ==> r.formats == mapped && |r.formats| > 0
  {
    if mapped == [] then AllFormats else OnlyFormats(mapped)
  }
}
