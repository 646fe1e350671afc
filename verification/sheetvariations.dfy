/**
 * The registry of known survey worksheet layouts
 * (pkg/densitysurvey/sheetvariations.go): static data only. Rows and columns
 * are 0-based indices into the fetched cell grid, not A1 letters.
 */
module SheetVariations {

  /** One header cell that must hold exactly `value`. */
  datatype SheetHeaderCheck = SheetHeaderCheck(column: int, row: int, value: string)

  /** One known worksheet layout. `minSampleRatio` is a float32 in 0..1 in the source. */
  datatype SheetVariant = SheetVariant(
    name: string,
    headerRow: int,
    headerChecks: seq<SheetHeaderCheck>,
    sampleIndicatorColumn: int,
    sysNameColumn: int,
    zSampleColumn: int,
    systemCountColumn: int,
    maxDistanceColumn: int,
    xColumn: int,
    zColumn: int,
    yColumn: int,
    minSampleRatio: real)

  const VariantDW3 := SheetVariant(
    "DW3", 4,
    [SheetHeaderCheck(0, 4, "System"), SheetHeaderCheck(2, 4, "System Count"),
     SheetHeaderCheck(6, 4, "X"), SheetHeaderCheck(7, 4, "Z"), SheetHeaderCheck(8, 4, "Y")],
    1, 0, 1, 2, 4, 6, 7, 8, 0.45)

  const VariantA15X := SheetVariant(
    "A15X", 4,
    [SheetHeaderCheck(0, 4, "System"), SheetHeaderCheck(2, 4, "n"),
     SheetHeaderCheck(5, 4, "X"), SheetHeaderCheck(6, 4, "Z"), SheetHeaderCheck(7, 4, "Y")],
    1, 0, 1, 2, 3, 5, 6, 7, 0.9)

  const VariantA15Xv1 := SheetVariant(
    "A15X", 5,
    [SheetHeaderCheck(0, 5, "System"), SheetHeaderCheck(2, 5, "n"),
     SheetHeaderCheck(5, 5, "X"), SheetHeaderCheck(6, 5, "Z"), SheetHeaderCheck(7, 5, "Y")],
    1, 0, 1, 2, 3, 5, 6, 7, 0.9)

  /** The registry, in order. */
  const SheetVariants := [VariantDW3, VariantA15X, VariantA15Xv1]

  /** Some header check of v expects `value` in column `column`. */
  predicate ChecksColumn(v: SheetVariant, column: int, value: string) {
    exists i :: 0 <= i < |v.headerChecks| && v.headerChecks[i].column == column && v.headerChecks[i].value == value
  }

  /** Some header check of v looks at column `column`. */
  predicate ChecksAt(v: SheetVariant, column: int) {
    exists i :: 0 <= i < |v.headerChecks| && v.headerChecks[i].column == column
  }

  /** The data columns of a variant, in the order system, z-sample, count, max distance, X, Z, Y. */
  function DataColumns(v: SheetVariant): seq<int> {
    [v.sysNameColumn, v.zSampleColumn, v.systemCountColumn, v.maxDistanceColumn, v.xColumn, v.zColumn, v.yColumn]
  }

  /** The internal consistency every registered layout has. */
  predicate Consistent(v: SheetVariant) {
    && (forall i :: 0 <= i < |v.headerChecks| ==> v.headerChecks[i].row == v.headerRow)
    && ChecksColumn(v, v.sysNameColumn, "System") && v.sysNameColumn == 0
    && ChecksAt(v, v.systemCountColumn) && v.systemCountColumn == 2
    && ChecksColumn(v, v.xColumn, "X") && ChecksColumn(v, v.zColumn, "Z") && ChecksColumn(v, v.yColumn, "Y")
    && v.sampleIndicatorColumn == v.zSampleColumn == 1
    && (forall i :: 0 <= i < |DataColumns(v)| ==> DataColumns(v)[i] >= 0)
    && (forall i, j :: 0 <= i < j < |DataColumns(v)| ==> DataColumns(v)[i] != DataColumns(v)[j])
    && 0.0 <= v.minSampleRatio <= 1.0
  }

  lemma DW3Consistent()
    ensures Consistent(VariantDW3)
  {
    var c := VariantDW3.headerChecks;
    assert c[0].column == 0 && c[0].value == "System";
    assert c[1].column == 2;
    assert c[2].column == 6 && c[2].value == "X";
    assert c[3].column == 7 && c[3].value == "Z";
    assert c[4].column == 8 && c[4].value == "Y";
  }

  lemma A15XConsistent()
    ensures Consistent(VariantA15X)
  {
    var c := VariantA15X.headerChecks;
    assert c[0].column == 0 && c[0].value == "System";
    assert c[1].column == 2;
    assert c[2].column == 5 && c[2].value == "X";
    assert c[3].column == 6 && c[3].value == "Z";
    assert c[4].column == 7 && c[4].value == "Y";
  }

  lemma A15Xv1Consistent()
    ensures Consistent(VariantA15Xv1)
  {
    var c := VariantA15Xv1.headerChecks;
    assert c[0].column == 0 && c[0].value == "System";
    assert c[1].column == 2;
    assert c[2].column == 5 && c[2].value == "X";
    assert c[3].column == 6 && c[3].value == "Z";
    assert c[4].column == 7 && c[4].value == "Y";
  }

  /** Every registered layout is consistent. */
  lemma RegistryConsistent()
    ensures forall i :: 0 <= i < |SheetVariants| ==> Consistent(SheetVariants[i])
  {
    DW3Consistent();
    A15XConsistent();
    A15Xv1Consistent();
  }

  /** Registry order: DW3 first, then A15X with its header on row 4, then A15X with its header on row 5. */
  lemma RegistryOrder()
    ensures |SheetVariants| == 3
    ensures SheetVariants[0].name == "DW3"
    ensures SheetVariants[1].name == "A15X" && SheetVariants[1].headerRow == 4
    ensures SheetVariants[2].name == "A15X" && SheetVariants[2].headerRow == 5
  {
  }

  /** The layout with every header check moved to row r. */
  function WithHeaderRow(v: SheetVariant, r: int): (w: SheetVariant)
    ensures |w.headerChecks| == |v.headerChecks|
    ensures forall i :: 0 <= i < |v.headerChecks| ==>
      w.headerChecks[i] == v.headerChecks[i].(row := r)
  {
    v.(headerRow := r,
       headerChecks := seq(|v.headerChecks|, i requires 0 <= i < |v.headerChecks| => v.headerChecks[i].(row := r)))
  }

  /** The two A15X layouts differ only in the header row and the rows of their checks. */
  lemma A15XVariantsDifferOnlyInHeaderRow()
    ensures VariantA15Xv1 == WithHeaderRow(VariantA15X, 5)
    ensures VariantA15X.headerRow == 4
  {
  }
}
