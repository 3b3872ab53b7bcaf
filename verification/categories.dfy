/** Sign categorisation of local scores (`liana/method/sp/_spatial_utils.py`):
    column standardisation, the "P"/"N"/"Z" encoding of each entry, the
    two-letter categories of a pair of encodings, and their simplification
    into co-expression codes. */
module Categories {
  import opened Numerics

  /** A vector minus its mean sums to zero. */
  lemma {:induction false} CentredSum(v: seq<real>)
    requires |v| > 0
    ensures Sum(Shift(v, Mean(v))) == 0.0
  {
    SumShift(v, Mean(v));
    assert Mean(v) * (|v| as real) == Sum(v);
  }

  /** `mat - mat.mean(axis=0)`: every column minus its mean. */
  function Centre(m: Matrix, rows: nat, cols: nat): (r: Matrix)
    requires IsMatrix(m, rows, cols)
    ensures IsMatrix(r, rows, cols)
  {
    seq(rows, i requires 0 <= i < rows => seq(cols, j requires 0 <= j < cols => m[i][j] - Mean(Col(m, j))))
  }

  /** Column `j` of the centred matrix is column `j` shifted by its mean. */
  lemma {:induction false} CentreColumn(m: Matrix, rows: nat, cols: nat, j: nat)
    requires IsMatrix(m, rows, cols) && rows > 0 && j < cols
    ensures Col(Centre(m, rows, cols), j) == Shift(Col(m, j), Mean(Col(m, j)))
  {
  }

  /** Each column of the centred matrix sums to zero. */
  lemma {:induction false} CentredColumnsSumToZero(m: Matrix, rows: nat, cols: nat, j: nat)
    requires IsMatrix(m, rows, cols) && rows > 0 && j < cols
    ensures Sum(Col(Centre(m, rows, cols), j)) == 0.0
  {
    CentreColumn(m, rows, cols, j);
    CentredSum(Col(m, j));
  }

  /** The sum of squares of column `j` of the centred matrix. */
  function CentredNorm(m: Matrix, rows: nat, cols: nat, j: nat): real
    requires IsMatrix(m, rows, cols) && j < cols
  {
    Sum(Square(Col(Centre(m, rows, cols), j)))
  }

  /** `_standardize_matrix(mat, local)`: column-centred, and for `local =
      False` every column further divided by the square root of its sum of
      squares. */
  function StandardizeMatrix(m: Matrix, rows: nat, cols: nat, local: bool, sqrt: real -> real): (r: Matrix)
    requires IsMatrix(m, rows, cols) && IsSqrt(sqrt)
    requires !local ==> forall j :: 0 <= j < cols ==> CentredNorm(m, rows, cols, j) > 0.0
    ensures IsMatrix(r, rows, cols)
  {
    var c := Centre(m, rows, cols);
    if local then c
    else
      seq(rows, i requires 0 <= i < rows =>
        seq(cols, j requires 0 <= j < cols =>
          SqrtPositive(sqrt, CentredNorm(m, rows, cols, j));
          Quotient(c[i][j], sqrt(CentredNorm(m, rows, cols, j)))))
  }

  /** `(x / s)^2 == x^2 / S` when `s * s == S`. */
  lemma {:induction false} SquareOfQuotient(x: real, s: real, S: real)
    requires s > 0.0 && S > 0.0 && s * s == S
    ensures Quotient(x, s) * Quotient(x, s) == Comb(Quotient(1.0, S), 0.0, 0.0, x * x, x * x, x * x)
  {
    var q := Quotient(x, s);
    assert x == q * s;
    assert x * x == q * q * S;
  }

  /** Dividing a vector by `s > 0` divides its sum by `s`. */
  lemma {:induction false} ScaledSum(c: seq<real>, col: seq<real>, s: real)
    requires |col| == |c| && s > 0.0
    requires forall k :: 0 <= k < |col| ==> col[k] == Quotient(c[k], s)
    ensures Sum(col) == Comb(Quotient(1.0, s), 0.0, 0.0, Sum(c), Sum(c), Sum(c))
  {
    forall k | 0 <= k < |col| ensures col[k] == Comb(Quotient(1.0, s), 0.0, 0.0, c[k], c[k], c[k]) {
      assert c[k] == Quotient(c[k], s) * s;
    }
    SumLinear(col, c, c, c, Quotient(1.0, s), 0.0, 0.0);
  }

  /** Dividing a vector by `s > 0` divides its sum of squares by `S = s * s`. */
  lemma {:induction false} ScaledSquareSum(c: seq<real>, col: seq<real>, s: real, S: real)
    requires |col| == |c| && s > 0.0 && S > 0.0 && s * s == S
    requires forall k :: 0 <= k < |col| ==> col[k] == Quotient(c[k], s)
    ensures Sum(Square(col)) == Comb(Quotient(1.0, S), 0.0, 0.0, Sum(Square(c)), Sum(Square(c)), Sum(Square(c)))
  {
    var sq, sc := Square(col), Square(c);
    forall k | 0 <= k < |col| ensures sq[k] == Comb(Quotient(1.0, S), 0.0, 0.0, sc[k], sc[k], sc[k]) {
      SquareOfQuotient(c[k], s, S);
    }
    SumLinear(sq, sc, sc, sc, Quotient(1.0, S), 0.0, 0.0);
  }

  /** Standardisation centres every column; the global (`local = False`)
      form also scales each column to unit sum of squares. */
  lemma {:induction false} StandardizedColumns(m: Matrix, rows: nat, cols: nat, local: bool, sqrt: real -> real, j: nat)
    requires IsMatrix(m, rows, cols) && IsSqrt(sqrt) && rows > 0 && j < cols
    requires !local ==> forall j :: 0 <= j < cols ==> CentredNorm(m, rows, cols, j) > 0.0
    ensures Sum(Col(StandardizeMatrix(m, rows, cols, local, sqrt), j)) == 0.0
    ensures !local ==> Sum(Square(Col(StandardizeMatrix(m, rows, cols, local, sqrt), j))) == 1.0
  {
    CentredColumnsSumToZero(m, rows, cols, j);
    if !local {
      var c := Col(Centre(m, rows, cols), j);
      var S := CentredNorm(m, rows, cols, j);
      SqrtPositive(sqrt, S);
      var col := Col(StandardizeMatrix(m, rows, cols, local, sqrt), j);
      assert forall k :: 0 <= k < |col| ==> col[k] == Quotient(c[k], sqrt(S));
      ScaledSum(c, col, sqrt(S));
      ScaledSquareSum(c, col, sqrt(S), S);
    }
  }

  /** The label of one value: "P" above zero, "N" below, "Z" at zero. */
  function Sign(v: real): (r: string)
    ensures r == "P" <==> v > 0.0
    ensures r == "N" <==> v < 0.0
    ensures r == "Z" <==> v == 0.0
  {
    if v > 0.0 then "P" else if v < 0.0 then "N" else "Z"
  }

  type Labels = seq<seq<string>>

  predicate IsLabels(l: Labels, rows: nat, cols: nat) {
    |l| == rows && forall i :: 0 <= i < rows ==> |l[i]| == cols
  }

  /** `_encode_as_char(a)`: signs of the entries, after column centring
      when no entry of the whole matrix is negative. */
  function EncodeAsChar(a: Matrix, rows: nat, cols: nat): (r: Labels)
    requires IsMatrix(a, rows, cols)
    ensures IsLabels(r, rows, cols)
    ensures forall i, j :: 0 <= i < rows && 0 <= j < cols ==> r[i][j] in {"P", "N", "Z"}
  {
    var b := if NonNegative(a) then Centre(a, rows, cols) else a;
    seq(rows, i requires 0 <= i < rows => seq(cols, j requires 0 <= j < cols => Sign(b[i][j])))
  }

  /** With a negative entry anywhere, the labels are the signs of the raw values. */
  lemma {:induction false} EncodeRawSigns(a: Matrix, rows: nat, cols: nat, i: nat, j: nat)
    requires IsMatrix(a, rows, cols) && i < rows && j < cols
    requires exists r, c :: 0 <= r < rows && 0 <= c < cols && a[r][c] < 0.0
    ensures EncodeAsChar(a, rows, cols)[i][j] == "P" <==> a[i][j] > 0.0
    ensures EncodeAsChar(a, rows, cols)[i][j] == "N" <==> a[i][j] < 0.0
  {
    assert !NonNegative(a);
    assert EncodeAsChar(a, rows, cols)[i][j] == Sign(a[i][j]);
  }

  /** With no negative entry, an entry is labelled "P" exactly when it is
      above its column mean and "N" exactly when it is below. */
  lemma {:induction false} EncodeCentredSigns(a: Matrix, rows: nat, cols: nat, i: nat, j: nat)
    requires IsMatrix(a, rows, cols) && NonNegative(a) && i < rows && j < cols
    ensures EncodeAsChar(a, rows, cols)[i][j] == "P" <==> a[i][j] > Mean(Col(a, j))
    ensures EncodeAsChar(a, rows, cols)[i][j] == "N" <==> a[i][j] < Mean(Col(a, j))
  {
    assert EncodeAsChar(a, rows, cols)[i][j] == Sign(Centre(a, rows, cols)[i][j]);
  }

  /** A vector summing to zero with a positive term has a negative one, and
      the other way round. */
  lemma {:induction false} ZeroSumBalanced(v: seq<real>)
    requires Sum(v) == 0.0
    ensures (exists k :: 0 <= k < |v| && v[k] > 0.0) <==> (exists k :: 0 <= k < |v| && v[k] < 0.0)
  {
    if exists k :: 0 <= k < |v| && v[k] > 0.0 {
      var k :| 0 <= k < |v| && v[k] > 0.0;
      if forall k' :: 0 <= k' < |v| ==> v[k'] >= 0.0 {
        SumZeroOfNonNegative(v);
        assert false;
      }
    }
    if exists k :: 0 <= k < |v| && v[k] < 0.0 {
      var k :| 0 <= k < |v| && v[k] < 0.0;
      var n := seq(|v|, k' requires 0 <= k' < |v| => -v[k']);
      SumLinear(n, v, v, v, -1.0, 0.0, 0.0);
      if forall k' :: 0 <= k' < |v| ==> v[k'] <= 0.0 {
        assert n[k] > 0.0;
        SumZeroOfNonNegative(n);
        assert false;
      }
    }
  }

  /** For a matrix with no negative entry, each column of labels holds a
      "P" exactly when it holds an "N": centring puts entries on both sides
      of the mean unless the column is constant. */
  lemma {:induction false} EncodeBalanced(a: Matrix, rows: nat, cols: nat, j: nat)
    requires IsMatrix(a, rows, cols) && NonNegative(a) && rows > 0 && j < cols
    ensures (exists i :: 0 <= i < rows && EncodeAsChar(a, rows, cols)[i][j] == "P")
        <==> (exists i :: 0 <= i < rows && EncodeAsChar(a, rows, cols)[i][j] == "N")
  {
    var c := Col(Centre(a, rows, cols), j);
    CentredColumnsSumToZero(a, rows, cols, j);
    ZeroSumBalanced(c);
    if i :| 0 <= i < rows && EncodeAsChar(a, rows, cols)[i][j] == "P" {
      EncodeCentredEntry(a, rows, cols, i, j);
      var k :| 0 <= k < |c| && c[k] < 0.0;
      EncodeCentredEntry(a, rows, cols, k, j);
    }
    if i :| 0 <= i < rows && EncodeAsChar(a, rows, cols)[i][j] == "N" {
      EncodeCentredEntry(a, rows, cols, i, j);
      var k :| 0 <= k < |c| && c[k] > 0.0;
      EncodeCentredEntry(a, rows, cols, k, j);
    }
  }

  /** With no negative entry, a label is the sign of the centred column entry. */
  lemma {:induction false} EncodeCentredEntry(a: Matrix, rows: nat, cols: nat, i: nat, j: nat)
    requires IsMatrix(a, rows, cols) && NonNegative(a) && i < rows && j < cols
    ensures EncodeAsChar(a, rows, cols)[i][j] == Sign(Col(Centre(a, rows, cols), j)[i])
  {
  }

  /** `_categorize(x, y)`: the element-wise concatenation of two label matrices. */
  function Categorize(x: Labels, y: Labels, rows: nat, cols: nat): (r: Labels)
    requires IsLabels(x, rows, cols) && IsLabels(y, rows, cols)
    ensures IsLabels(r, rows, cols)
  {
    seq(rows, i requires 0 <= i < rows => seq(cols, j requires 0 <= j < cols => x[i][j] + y[i][j]))
  }

  /** Each category splits back into the x-label followed by the y-label. */
  lemma {:induction false} CategorizeSplits(x: Labels, y: Labels, rows: nat, cols: nat, i: nat, j: nat)
    requires IsLabels(x, rows, cols) && IsLabels(y, rows, cols) && i < rows && j < cols
    ensures var c := Categorize(x, y, rows, cols)[i][j];
            |c| == |x[i][j]| + |y[i][j]| && c[..|x[i][j]|] == x[i][j] && c[|x[i][j]|..] == y[i][j]
  {
  }

  /** A cell of a simplified category matrix: an integer code, or a label
      that no replacement matched. */
  datatype Category = Code(code: int) | Text(text: string)

  /** The key the source gives for the Z-labelled categories. */
  const ZKey: string := "(^*Z*$)"

  /** `_simplify_cats` as written: `DataFrame.replace` with a dictionary
      and without `regex=True` replaces whole cells equal to a key, so the
      pattern key is compared literally. */
  function SimplifyAsWritten(s: string): (r: Category)
    ensures r.Text? ==> r.text == s
  {
    if s == ZKey || s == "NN" then Code(0)
    else if s == "PP" then Code(1)
    else if s == "PN" || s == "NP" then Code(-1)
    else Text(s)
  }

  function SimplifyCatsAsWritten(df: Labels, rows: nat, cols: nat): (r: seq<seq<Category>>)
    requires IsLabels(df, rows, cols)
    ensures |r| == rows && forall i :: 0 <= i < rows ==> |r[i]| == cols
  {
    seq(rows, i requires 0 <= i < rows => seq(cols, j requires 0 <= j < cols => SimplifyAsWritten(df[i][j])))
  }

  /** The discrepancy: every category holding a "Z" stays an unreplaced
      label instead of becoming 0. */
  lemma {:induction false} SimplifyAsWrittenKeepsZ(x: string, y: string)
    requires x in {"P", "N", "Z"} && y in {"P", "N", "Z"} && (x == "Z" || y == "Z")
    ensures SimplifyAsWritten(x + y) == Text(x + y)
  {
    assert (x + y)[0] == x[0] && (x + y)[1] == y[0];
  }

  /** A concrete instance: a positive x next to a zero y. */
  lemma {:induction false} SimplifyAsWrittenCounterexample()
    ensures SimplifyAsWritten("PZ") == Text("PZ")
  {
    SimplifyAsWrittenKeepsZ("P", "Z");
  }

  /** `_simplify_cats` as intended: any category containing "Z" becomes 0. */
  function SimplifyCategory(s: string): (r: Category)
    ensures r.Text? ==> r.text == s
  {
    if 'Z' in s || s == "NN" then Code(0)
    else if s == "PP" then Code(1)
    else if s == "PN" || s == "NP" then Code(-1)
    else Text(s)
  }

  /** The two agree on every category of two non-zero labels. */
  lemma {:induction false} SimplifyAgrees(x: string, y: string)
    requires x in {"P", "N"} && y in {"P", "N"}
    ensures SimplifyAsWritten(x + y) == SimplifyCategory(x + y)
  {
    assert (x + y)[0] == x[0] && (x + y)[1] == y[0];
    assert 'Z' !in x + y;
  }

  /** Every category of two labels simplifies to a code in {-1, 0, 1}: 1
      for PP, -1 for a P next to an N, and 0 for NN or when a label is Z. */
  lemma {:induction false} SimplifyCodes(x: string, y: string)
    requires x in {"P", "N", "Z"} && y in {"P", "N", "Z"}
    ensures SimplifyCategory(x + y).Code?
    ensures SimplifyCategory(x + y).code == 1 <==> x == "P" && y == "P"
    ensures SimplifyCategory(x + y).code == -1 <==> (x == "P" && y == "N") || (x == "N" && y == "P")
    ensures SimplifyCategory(x + y).code == 0 <==> x == "Z" || y == "Z" || (x == "N" && y == "N")
  {
    assert (x + y)[0] == x[0] && (x + y)[1] == y[0];
    assert 'Z' in x + y <==> x == "Z" || y == "Z";
  }

  function SimplifyCats(df: Labels, rows: nat, cols: nat): (r: seq<seq<Category>>)
    requires IsLabels(df, rows, cols)
    ensures |r| == rows && forall i :: 0 <= i < rows ==> |r[i]| == cols
  {
    seq(rows, i requires 0 <= i < rows => seq(cols, j requires 0 <= j < cols => SimplifyCategory(df[i][j])))
  }

  /** The categories of two encoded matrices simplify to codes: 1 where
      both labels are "P", -1 where the labels are "P" and "N", and 0 where
      both are "N" or either is "Z". */
  lemma {:induction false} SimplifiedEncodings(a: Matrix, b: Matrix, rows: nat, cols: nat, i: nat, j: nat)
    requires IsMatrix(a, rows, cols) && IsMatrix(b, rows, cols) && i < rows && j < cols
    ensures var x := EncodeAsChar(a, rows, cols)[i][j];
            var y := EncodeAsChar(b, rows, cols)[i][j];
            var s := SimplifyCats(Categorize(EncodeAsChar(a, rows, cols), EncodeAsChar(b, rows, cols), rows, cols), rows, cols)[i][j];
            s.Code? && (s.code == 1 <==> x == "P" && y == "P")
            && (s.code == -1 <==> (x == "P" && y == "N") || (x == "N" && y == "P"))
            && (s.code == 0 <==> x == "Z" || y == "Z" || (x == "N" && y == "N"))
  {
    SimplifyCodes(EncodeAsChar(a, rows, cols)[i][j], EncodeAsChar(b, rows, cols)[i][j]);
  }
}
