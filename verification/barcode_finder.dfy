/**
 * The size of the square barcode finder (app/features/scanning/utilities/index.ts).
 * Layout sizes are whole numbers here.
 */
module BarcodeFinder {

  /**
   * `getBarcodeFinderSize`: the largest square side that fits in the layout once the padding
   * is removed from both sides in each direction.
   */
  function GetBarcodeFinderSize(width: int, height: int, finderPadding: int): (size: int)
    ensures size <= width - 2 * finderPadding && size <= height - 2 * finderPadding
    ensures size == width - 2 * finderPadding || size == height - 2 * finderPadding
  {
    var paddingBothSides := finderPadding * 2;
    var maxBarcodeFinderHeight := height - paddingBothSides;
    var maxBarcodeFinderWidth := width - paddingBothSides;
    if maxBarcodeFinderWidth <= maxBarcodeFinderHeight then maxBarcodeFinderWidth else maxBarcodeFinderHeight
  }

  /** Any square side that fits is at most the finder size. */
  lemma FinderSizeIsLargestFit(width: int, height: int, finderPadding: int, side: int)
    requires side <= width - 2 * finderPadding && side <= height - 2 * finderPadding
    ensures side <= GetBarcodeFinderSize(width, height, finderPadding)
  {
  }

  /** Turning the layout sideways does not change the finder. */
  lemma FinderSizeSymmetric(width: int, height: int, finderPadding: int)
    ensures GetBarcodeFinderSize(width, height, finderPadding) == GetBarcodeFinderSize(height, width, finderPadding)
  {
  }

  /** Each extra unit of padding takes two units off the side. */
  lemma FinderSizePadding(width: int, height: int, finderPadding: int, k: int)
    ensures GetBarcodeFinderSize(width, height, finderPadding + k) == GetBarcodeFinderSize(width, height, finderPadding) - 2 * k
  {
  }
}
