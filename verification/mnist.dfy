/** The MNIST dataset object: construction from the three decoded
    (inputs, labels) pairs, optional binarisation, the train/valid merge,
    the recorded shapes, and index lookup by subset tag. */
module Mnist {
  import opened Common

  /** One sample's features. */
  type Row = seq<real>

  /** A two-dimensional feature array: `width` columns, one Row per sample.
      The width is kept separately so that an array with no rows still has
      a column count, as a numpy array of shape (0, d) does. */
  datatype Matrix = Matrix(width: nat, rows: seq<Row>)

  /** Every row has the array's width. */
  predicate WellFormed(m: Matrix) {
    forall i :: 0 <= i < |m.rows| ==> |m.rows[i]| == m.width
  }

  /** The `shape` attribute of a two-dimensional array. */
  datatype Shape = Shape(count: nat, features: nat)

  function ShapeOf(m: Matrix): Shape {
    Shape(|m.rows|, m.width)
  }

  /** One decoded (inputs, labels) pair as it comes out of the data file. */
  datatype Split = Split(inputs: Matrix, labels: seq<int>)

  /** The subset tag a caller passes to the lookups. `Unrecognised(tag)`
      stands for any value other than the three known subset constants;
      `tag` is never the value of one of them. */
  datatype Subset = Train | Valid | Test | Unrecognised(tag: int)

  /** `numpy.concatenate` refuses arrays whose column counts differ. */
  datatype LoadError = WidthMismatch(trainWidth: nat, validWidth: nat)

  /** The constructed dataset. Train inputs are read by the data lookup
      without any presence test, so they are stored unconditionally; every
      other stored array is tested for presence by some lookup and is
      therefore optional. */
  datatype Dataset = Dataset(
    trainX: Matrix, trainY: Option<seq<int>>,
    validX: Option<Matrix>, validY: Option<seq<int>>,
    testX: Option<Matrix>, testY: Option<seq<int>>,
    trainShape: Shape, validShape: Shape, testShape: Shape)

  /** What a lookup yields: `None` (Absent), the selected items, or the
      IndexError raised for an index outside the array. */
  datatype Lookup<T> = Absent | Found(items: seq<T>) | OutOfRange

  /** Inputs strictly above this value become 1.0, the rest 0.0. */
  const BinaryCutoff: real := 0.5

  // ---------------------------------------------------------------------
  // Binarisation
  // ---------------------------------------------------------------------

  /** Every element is 0.0 or 1.0. */
  ghost predicate IsBinary(x: seq<Row>) {
    forall i, j :: 0 <= i < |x| && 0 <= j < |x[i]| ==> x[i][j] == 0.0 || x[i][j] == 1.0
  }

  /** Reference definition: `b` is `x` thresholded element by element at
      the cutoff, with the same number of rows and the same row lengths. */
  ghost predicate Thresholds(b: seq<Row>, x: seq<Row>) {
    && |b| == |x|
    && (forall i :: 0 <= i < |x| ==> |b[i]| == |x[i]|)
    && (forall i, j :: 0 <= i < |x| && 0 <= j < |x[i]| ==>
          b[i][j] == (if x[i][j] > BinaryCutoff then 1.0 else 0.0))
  }

  /** `(row > cutoff).astype('float32')` for one row. */
  function BinariseRow(r: Row): (b: Row)
    ensures |b| == |r|
    ensures forall j :: 0 <= j < |r| ==> (b[j] == 1.0 <==> r[j] > BinaryCutoff)
    ensures forall j :: 0 <= j < |r| ==> (b[j] == 0.0 <==> r[j] <= BinaryCutoff)
  {
    if |r| == 0 then []
    else [if r[0] > BinaryCutoff then 1.0 else 0.0] + BinariseRow(r[1..])
  }

  /** `(X > cutoff).astype('float32')` for a whole array. */
  function BinariseRows(x: seq<Row>): (b: seq<Row>)
    ensures Thresholds(b, x)
    ensures IsBinary(b)
  {
    if |x| == 0 then []
    else [BinariseRow(x[0])] + BinariseRows(x[1..])
  }

  /** The preparation each split's inputs receive before the merge:
      thresholded when `binary` is set, untouched otherwise. */
  function Prepare(m: Matrix, binary: bool): (p: Matrix)
    ensures p.width == m.width
    ensures |p.rows| == |m.rows|
    ensures binary ==> Thresholds(p.rows, m.rows) && IsBinary(p.rows)
    ensures !binary ==> p == m
    ensures WellFormed(m) ==> WellFormed(p)
  {
    if binary then Matrix(m.width, BinariseRows(m.rows)) else m
  }

  /** The thresholded form of an array is unique. */
  lemma ThresholdsUnique(b: seq<Row>, c: seq<Row>, x: seq<Row>)
    requires Thresholds(b, x) && Thresholds(c, x)
    ensures b == c
  {
    forall i | 0 <= i < |x|
      ensures b[i] == c[i]
    {
      assert |b[i]| == |c[i]|;
      forall j | 0 <= j < |b[i]|
        ensures b[i][j] == c[i][j]
      {
      }
    }
  }

  /** An array that is already binary is its own thresholded form. */
  lemma BinaryIsFixed(x: seq<Row>)
    requires IsBinary(x)
    ensures Thresholds(x, x)
  {
  }

  /** Binarising twice gives what binarising once gives. */
  lemma BinariseIdempotent(x: seq<Row>)
    ensures BinariseRows(BinariseRows(x)) == BinariseRows(x)
  {
    var once := BinariseRows(x);
    BinaryIsFixed(once);
    ThresholdsUnique(BinariseRows(once), once, once);
  }

  /** Binarising the parts and then concatenating them equals binarising
      the concatenation: thresholding each split before the merge loses
      nothing against thresholding the merged array. */
  lemma BinariseDistributesOverConcat(a: seq<Row>, b: seq<Row>)
    ensures BinariseRows(a + b) == BinariseRows(a) + BinariseRows(b)
  {
    var ba, bb := BinariseRows(a), BinariseRows(b);
    var x := a + b;
    var joined := ba + bb;
    forall i | 0 <= i < |x|
      ensures |joined[i]| == |x[i]|
      ensures forall j :: 0 <= j < |x[i]| ==>
        joined[i][j] == (if x[i][j] > BinaryCutoff then 1.0 else 0.0)
    {
      if i < |a| {
        assert joined[i] == ba[i] && x[i] == a[i];
      } else {
        assert joined[i] == bb[i - |a|] && x[i] == b[i - |a|];
      }
    }
    assert Thresholds(joined, x);
    ThresholdsUnique(BinariseRows(x), joined, x);
  }

  // ---------------------------------------------------------------------
  // Construction
  // ---------------------------------------------------------------------

  /** The constructor after decoding: prepare each split independently,
      append valid to train (inputs and labels), record the shapes, and
      store all six arrays. The valid arrays are stored as they were
      before the merge; they are not cleared. */
  function Load(train: Split, valid: Split, test: Split, binary: bool): (r: Result<Dataset, LoadError>)
    ensures r.Failure? <==> train.inputs.width != valid.inputs.width
    ensures r.Failure? ==> r.error == WidthMismatch(train.inputs.width, valid.inputs.width)
    ensures r.Success? ==>
      && |r.value.trainX.rows| == |train.inputs.rows| + |valid.inputs.rows|
      && r.value.trainX.rows[..|train.inputs.rows|] == Prepare(train.inputs, binary).rows
      && r.value.trainX.rows[|train.inputs.rows|..] == Prepare(valid.inputs, binary).rows
      && r.value.trainX.width == train.inputs.width
    ensures r.Success? ==>
      && r.value.trainY == Some(train.labels + valid.labels)
      && r.value.validX == Some(Prepare(valid.inputs, binary))
      && r.value.validY == Some(valid.labels)
      && r.value.testX == Some(Prepare(test.inputs, binary))
      && r.value.testY == Some(test.labels)
    ensures r.Success? ==>
      && r.value.trainShape == ShapeOf(r.value.trainX)
      && r.value.trainShape == Shape(|train.inputs.rows| + |valid.inputs.rows|, train.inputs.width)
      && r.value.validShape == ShapeOf(valid.inputs)
      && r.value.testShape == ShapeOf(test.inputs)
    ensures r.Success? && WellFormed(train.inputs) && WellFormed(valid.inputs) ==>
      WellFormed(r.value.trainX)
  {
    var t := Prepare(train.inputs, binary);
    var v := Prepare(valid.inputs, binary);
    var s := Prepare(test.inputs, binary);
    if t.width != v.width then
      Failure(WidthMismatch(t.width, v.width))
    else
      var merged := Matrix(t.width, t.rows + v.rows);
      Success(Dataset(
        merged, Some(train.labels + valid.labels),
        Some(v), Some(valid.labels),
        Some(s), Some(test.labels),
        ShapeOf(merged), ShapeOf(v), ShapeOf(s)))
  }

  // ---------------------------------------------------------------------
  // Indexed access
  // ---------------------------------------------------------------------

  /** numpy accepts an index into an array of length n when -n <= i < n. */
  predicate InRange(i: int, n: nat) {
    0 <= i + n && i < n
  }

  predicate AllInRange(indices: seq<int>, n: nat) {
    forall k :: 0 <= k < |indices| ==> InRange(indices[k], n)
  }

  /** The position an accepted index denotes: negative indices count from
      the end. */
  function Position(i: int, n: nat): (p: nat)
    requires InRange(i, n)
    ensures p < n
  {
    if i < 0 then i + n else i
  }

  /** `xs[indices]` with a list of indices: the items at those positions,
      in the order given, duplicates kept; `None` stands for the
      IndexError raised when some index is out of range. */
  function Gather<T>(xs: seq<T>, indices: seq<int>): (r: Option<seq<T>>)
    ensures r.Some? <==> AllInRange(indices, |xs|)
    ensures r.Some? ==> |r.value| == |indices|
    ensures r.Some? ==> forall k :: 0 <= k < |indices| ==>
      r.value[k] == xs[Position(indices[k], |xs|)]
  {
    if |indices| == 0 then Some([])
    else if !InRange(indices[0], |xs|) then None
    else
      match Gather(xs, indices[1..])
      case None => None
      case Some(rest) => Some([xs[Position(indices[0], |xs|)]] + rest)
  }

  /** Indexing a stored array that the lookup has decided to use. */
  function Index<T>(xs: seq<T>, indices: seq<int>): Lookup<T> {
    match Gather(xs, indices)
    case None => OutOfRange
    case Some(items) => Found(items)
  }

  /** What indexing `xs` with `indices` must yield: never Absent; Found
      exactly when every index is accepted; the items in index order. */
  ghost predicate IndexedBy<T>(r: Lookup<T>, xs: seq<T>, indices: seq<int>) {
    && !r.Absent?
    && (r.Found? <==> AllInRange(indices, |xs|))
    && (r.Found? ==> |r.items| == |indices|)
    && (r.Found? ==> forall k :: 0 <= k < |indices| ==> r.items[k] == xs[Position(indices[k], |xs|)])
  }

  /** The guard `hasattr(self, a) and self.a`. The stored arrays are
      shared-variable objects, which are taken to be always truthy
      whatever they hold, so the guard tests presence only: an empty
      stored array passes it. */
  predicate Stored<T>(o: Option<T>) {
    o.Some?
  }

  /** `getDataByIndices`: train inputs are indexed without any presence
      test; valid and test inputs only when stored; any other tag gives
      Absent. */
  function GetDataByIndices(d: Dataset, indices: seq<int>, subset: Subset): (r: Lookup<Row>)
    ensures subset == Train ==> IndexedBy(r, d.trainX.rows, indices)
    ensures subset == Valid ==>
      if Stored(d.validX) then IndexedBy(r, d.validX.value.rows, indices) else r.Absent?
    ensures subset == Test ==>
      if Stored(d.testX) then IndexedBy(r, d.testX.value.rows, indices) else r.Absent?
    ensures subset.Unrecognised? ==> r.Absent?
  {
    match subset
    case Train => Index(d.trainX.rows, indices)
    case Valid => if Stored(d.validX) then Index(d.validX.value.rows, indices) else Absent
    case Test => if Stored(d.testX) then Index(d.testX.value.rows, indices) else Absent
    case Unrecognised(_) => Absent
  }

  /** `getLabelsByIndices`: unlike the data lookup, every subset, train
      included, is tested for presence first. */
  function GetLabelsByIndices(d: Dataset, indices: seq<int>, subset: Subset): (r: Lookup<int>)
    ensures subset == Train ==>
      if Stored(d.trainY) then IndexedBy(r, d.trainY.value, indices) else r.Absent?
    ensures subset == Valid ==>
      if Stored(d.validY) then IndexedBy(r, d.validY.value, indices) else r.Absent?
    ensures subset == Test ==>
      if Stored(d.testY) then IndexedBy(r, d.testY.value, indices) else r.Absent?
    ensures subset.Unrecognised? ==> r.Absent?
  {
    match subset
    case Train => if Stored(d.trainY) then Index(d.trainY.value, indices) else Absent
    case Valid => if Stored(d.validY) then Index(d.validY.value, indices) else Absent
    case Test => if Stored(d.testY) then Index(d.testY.value, indices) else Absent
    case Unrecognised(_) => Absent
  }

  // ---------------------------------------------------------------------
  // Properties of a constructed dataset
  // ---------------------------------------------------------------------

  /** Each decoded pair holds one label per input row. */
  predicate Aligned(s: Split) {
    |s.labels| == |s.inputs.rows|
  }

  /** The (prepared row, label) sample that sits at position `p` of the
      merged train set: train sample p, or valid sample p - |train|. */
  ghost function MergedSample(train: Split, valid: Split, binary: bool, p: nat): (Row, int)
    requires Aligned(train) && Aligned(valid)
    requires p < |train.inputs.rows| + |valid.inputs.rows|
  {
    var n := |train.inputs.rows|;
    if p < n then (Prepare(train.inputs, binary).rows[p], train.labels[p])
    else (Prepare(valid.inputs, binary).rows[p - n], valid.labels[p - n])
  }

  /** Position by position, the merged train inputs and labels hold the
      original samples. */
  lemma MergedPositionHoldsSample(train: Split, valid: Split, test: Split, binary: bool, p: nat)
    requires Aligned(train) && Aligned(valid)
    requires Load(train, valid, test, binary).Success?
    requires p < |train.inputs.rows| + |valid.inputs.rows|
    ensures
      var d := Load(train, valid, test, binary).value;
      && p < |d.trainX.rows| && p < |d.trainY.value|
      && (d.trainX.rows[p], d.trainY.value[p]) == MergedSample(train, valid, binary, p)
  {
    var d := Load(train, valid, test, binary).value;
    var n := |train.inputs.rows|;
    var rows := d.trainX.rows;
    var labels := d.trainY.value;
    assert labels == train.labels + valid.labels;
    if p < n {
      assert rows[p] == rows[..n][p];
    } else {
      assert rows[p] == rows[n..][p - n];
    }
  }

  /** After construction, the train rows and train labels selected by the
      same in-range indices come from the same original sample. */
  lemma TrainLookupsStayAligned(train: Split, valid: Split, test: Split, binary: bool, indices: seq<int>)
    requires Aligned(train) && Aligned(valid)
    requires Load(train, valid, test, binary).Success?
    requires AllInRange(indices, |train.inputs.rows| + |valid.inputs.rows|)
    ensures
      var d := Load(train, valid, test, binary).value;
      var xs := GetDataByIndices(d, indices, Train);
      var ys := GetLabelsByIndices(d, indices, Train);
      && xs.Found? && ys.Found?
      && |xs.items| == |indices| && |ys.items| == |indices|
      && forall k :: 0 <= k < |indices| ==>
           (xs.items[k], ys.items[k])
             == MergedSample(train, valid, binary, Position(indices[k], |train.inputs.rows| + |valid.inputs.rows|))
  {
    var d := Load(train, valid, test, binary).value;
    var total := |train.inputs.rows| + |valid.inputs.rows|;
    var rows := d.trainX.rows;
    var labels := d.trainY.value;
    assert |rows| == total && |labels| == total;
    var xs := GetDataByIndices(d, indices, Train);
    var ys := GetLabelsByIndices(d, indices, Train);
    assert IndexedBy(xs, rows, indices);
    assert IndexedBy(ys, labels, indices);
    forall k | 0 <= k < |indices|
      ensures (xs.items[k], ys.items[k]) == MergedSample(train, valid, binary, Position(indices[k], total))
    {
      var p := Position(indices[k], total);
      MergedPositionHoldsSample(train, valid, test, binary, p);
    }
  }

  /** The merge does not clear the valid split: after construction a
      valid lookup still indexes the prepared valid inputs and the
      original valid labels. */
  lemma ValidSurvivesMerge(train: Split, valid: Split, test: Split, binary: bool, indices: seq<int>)
    requires Load(train, valid, test, binary).Success?
    ensures
      var d := Load(train, valid, test, binary).value;
      && IndexedBy(GetDataByIndices(d, indices, Valid), Prepare(valid.inputs, binary).rows, indices)
      && IndexedBy(GetLabelsByIndices(d, indices, Valid), valid.labels, indices)
  {
  }

  /** Construction stores all six arrays, so on a constructed dataset a
      lookup is Absent exactly when the subset tag is unrecognised. */
  lemma LoadedLookupsAbsentOnlyForUnknownTag(train: Split, valid: Split, test: Split, binary: bool,
                                              indices: seq<int>, subset: Subset)
    requires Load(train, valid, test, binary).Success?
    ensures
      var d := Load(train, valid, test, binary).value;
      && (GetDataByIndices(d, indices, subset).Absent? <==> subset.Unrecognised?)
      && (GetLabelsByIndices(d, indices, subset).Absent? <==> subset.Unrecognised?)
  {
  }

  /** A worked case: five train rows, two valid rows, three test rows.
      Index 6 of the merged train set is the second valid row, index -1
      is the last valid row, index 7 is out of range, and the valid
      subset still answers. */
  lemma MergedLookupExample()
    ensures
      var t := [[0.1], [0.2], [0.3], [0.4], [0.5]];
      var v := [[0.6], [0.7]];
      var s := [[0.8], [0.9], [1.0]];
      var r := Load(Split(Matrix(1, t), [0, 1, 2, 3, 4]), Split(Matrix(1, v), [5, 6]),
                    Split(Matrix(1, s), [7, 8, 9]), false);
      && r.Success?
      && GetDataByIndices(r.value, [0, 6], Train) == Found([t[0], v[1]])
      && GetLabelsByIndices(r.value, [0, 6], Train) == Found([0, 6])
      && GetDataByIndices(r.value, [-1, 0, -1], Train) == Found([v[1], t[0], v[1]])
      && GetDataByIndices(r.value, [7], Train) == OutOfRange
      && GetDataByIndices(r.value, [0], Valid) == Found([v[0]])
      && GetLabelsByIndices(r.value, [1], Test) == Found([8])
      && GetDataByIndices(r.value, [0], Unrecognised(3)) == Absent
  {
    var t := [[0.1], [0.2], [0.3], [0.4], [0.5]];
    var v := [[0.6], [0.7]];
    var s := [[0.8], [0.9], [1.0]];
    var r := Load(Split(Matrix(1, t), [0, 1, 2, 3, 4]), Split(Matrix(1, v), [5, 6]),
                  Split(Matrix(1, s), [7, 8, 9]), false);
    var d := r.value;
    assert d.trainX.rows == t + v;
    assert d.trainY.value == [0, 1, 2, 3, 4, 5, 6];
  }

  /** With no train or valid samples at all, both train lookups still
      answer: an empty index list selects nothing and any index is out of
      range. Emptiness never turns a stored subset into Absent. */
  lemma EmptyTrainLookupsAnswer(test: Split, binary: bool)
    ensures
      var r := Load(Split(Matrix(3, []), []), Split(Matrix(3, []), []), test, binary);
      && r.Success?
      && GetDataByIndices(r.value, [], Train) == Found([])
      && GetLabelsByIndices(r.value, [], Train) == Found([])
      && GetDataByIndices(r.value, [0], Train) == OutOfRange
      && GetLabelsByIndices(r.value, [-1], Train) == OutOfRange
      && GetDataByIndices(r.value, [], Valid) == Found([])
  {
  }
}
