/** The run's bookkeeping object: record counters and the barcode counter that
    the record loop and barcode extraction update in place. */
module Counters {

  class Metrics {
    var allRecs: nat
    var notmappedRecs: nat
    var mappedRecs: nat
    var lowmapqRecs: nat
    var usedRecs: nat
    var invalidrandomerRecs: nat
    var norandomerRecs: nat
    /** Barcode -> number of used records carrying it. */
    var bcCn: map<string, nat>
    var strangeRecs: nat

    constructor ()
      ensures allRecs == notmappedRecs == mappedRecs == lowmapqRecs == usedRecs == 0
      ensures invalidrandomerRecs == norandomerRecs == strangeRecs == 0
      ensures bcCn == map[]
    {
      allRecs, notmappedRecs, mappedRecs, lowmapqRecs, usedRecs := 0, 0, 0, 0, 0;
      invalidrandomerRecs, norandomerRecs, strangeRecs := 0, 0, 0;
      bcCn := map[];
    }
  }
}
