/** Values shared by every stage of the cross-link site engine. */
module Types {

  datatype Option<+T> = None | Some(value: T)

  /** The failures that abort a whole run (Python exceptions in the source). */
  datatype Error =
    | MissingNhTag(queryName: string)   // ValueError: "NH" tag not set for record
    | NoPositions                       // IndexError: poss[-1] on a record without aligned positions
    | NoHoles                           // ValueError: holes.index(...) on an empty list of holes
    | NoAnnotationFor(key: ChromStrand) // KeyError: annotation[(chrom, strand)]

  datatype Result<+T> = Ok(value: T) | Err(error: Error)

  datatype Strand = Plus | Minus

  /** The outer key of the hierarchy: reference name and strand. */
  datatype ChromStrand = ChromStrand(chrom: string, strand: Strand)

  /** What one used read leaves behind under its barcode:
      (middle_pos, end_pos, read_len, num_mapped, second_start). */
  datatype Hit = Hit(middlePos: int, endPos: int, readLen: nat, numMapped: int, secondStart: int)

  /** A read as the alignment source delivers it. `nh` is the optional NH tag
      (number of reported alignments); `seqLen` is the length of the read's sequence. */
  datatype Record = Record(
    queryName: string,
    isUnmapped: bool,
    isReverse: bool,
    refName: string,
    mapq: int,
    nh: Option<int>,
    positions: seq<int>,
    seqLen: nat)

  /** Which coordinate of a read receives its score. */
  datatype GroupBy = Start | Middle | End

  /** One segment of a transcript in the segmentation. */
  datatype Segment = Segment(start: int, stop: int)

  /** The prepared segmentation: (chrom, strand) -> gene id -> transcript id -> segments.
      The transcript id "gene_segment" stands for the whole gene. */
  type Genes = map<string, map<string, seq<Segment>>>
  type Annotation = map<ChromStrand, Genes>

  /** Barcode -> hits, for one (chrom, strand, cross-link position) bucket. */
  type ByBarcode = map<string, seq<Hit>>

  /** The full hierarchy: (chrom, strand) -> cross-link position -> barcode -> hits. */
  type Grouped = map<ChromStrand, map<int, ByBarcode>>
}
