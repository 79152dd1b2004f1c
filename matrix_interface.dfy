/** `MatrixInterface`: a registry of named two-dimensional numpy matrices
 *  that are created zero-filled, resized keeping their overlapping top-left
 *  block, deleted, and transposed. */
module MatrixInterfaces {
  import opened Wrappers

  /** A two-dimensional numpy array of floats: its shape and its rows. */
  datatype Matrix = Matrix(rows: nat, cols: nat, entries: seq<seq<real>>)

  predicate Shaped(m: Matrix) {
    |m.entries| == m.rows && forall i :: 0 <= i < m.rows ==> |m.entries[i]| == m.cols
  }

  type Grid = m: Matrix | Shaped(m) witness Matrix(0, 0, [])

  type Registry = map<string, Grid>

  function Min(a: nat, b: nat): nat {
    if a <= b then a else b
  }

  /** `np.zeros((rows, cols))`, which raises ValueError for a negative
   *  dimension. */
  function Zeros(dims: (int, int)): Result<Grid> {
    if dims.0 < 0 || dims.1 < 0 then Err(ValueError)
    else
      var z: Grid := Matrix(dims.0, dims.1, seq(dims.0, i => seq(dims.1, j => 0.0)));
      Ok(z)
  }

  /** `new_matrix = np.zeros(new_dimensions)` followed by
   *  `new_matrix[:min_rows, :min_cols] = old_matrix[:min_rows, :min_cols]`. */
  function Resized(m: Grid, rows: nat, cols: nat): Grid {
    var minRows := Min(m.rows, rows);
    var minCols := Min(m.cols, cols);
    Matrix(rows, cols, seq(rows, i requires 0 <= i < rows => seq(cols, j requires 0 <= j < cols =>
      if i < minRows && j < minCols then m.entries[i][j] else 0.0)))
  }

  /** `matrix.T` */
  function Transpose(m: Grid): Grid {
    Matrix(m.cols, m.rows, seq(m.cols, j requires 0 <= j < m.cols => seq(m.rows, i requires 0 <= i < m.rows => m.entries[i][j])))
  }

  /** `create_matrix`: a taken name raises ValueError, then `np.zeros`
   *  rejects a negative dimension. */
  function CreateStep(reg: Registry, name: string, dims: (int, int)): (Result<Grid>, Registry) {
    if name in reg then (Err(ValueError), reg)
    else
      match Zeros(dims)
      case Err(e) => (Err(e), reg)
      case Ok(z) => (Ok(z), reg[name := z])
  }

  /** `get_matrix` */
  function GetStep(reg: Registry, name: string): Result<Grid> {
    if name !in reg then Err(ValueError) else Ok(reg[name])
  }

  /** `update_matrix`: an unknown name raises ValueError, then `np.zeros`
   *  rejects a negative dimension. */
  function UpdateStep(reg: Registry, name: string, dims: (int, int)): (Result<Grid>, Registry) {
    if name !in reg then (Err(ValueError), reg)
    else if dims.0 < 0 || dims.1 < 0 then (Err(ValueError), reg)
    else
      var m := Resized(reg[name], dims.0, dims.1);
      (Ok(m), reg[name := m])
  }

  /** `delete_matrix` */
  function DeleteStep(reg: Registry, name: string): (Outcome, Registry) {
    if name !in reg then (Fail(ValueError), reg) else (Pass, reg - {name})
  }

  /** `perform_operation`: an unknown name raises ValueError, and so does
   *  any operation other than "transpose". */
  function OperationStep(reg: Registry, name: string, operation: string): Result<Grid> {
    if name !in reg then Err(ValueError)
    else if operation == "transpose" then Ok(Transpose(reg[name]))
    else Err(ValueError)
  }

  /** A new matrix has the requested shape and only zero entries. */
  lemma ZerosAreZero(dims: (int, int))
    ensures Zeros(dims).Ok? <==> dims.0 >= 0 && dims.1 >= 0
    ensures Zeros(dims).Err? ==> Zeros(dims).error == ValueError
    ensures var z := Zeros(dims);
            z.Ok? ==> z.value.rows == dims.0 && z.value.cols == dims.1 &&
                      forall i, j :: 0 <= i < dims.0 && 0 <= j < dims.1 ==> z.value.entries[i][j] == 0.0
  {
  }

  /** After a resize, the entries in the overlapping top-left block are the
   *  old ones and every other entry is zero. */
  lemma ResizedKeepsBlock(m: Grid, rows: nat, cols: nat, i: nat, j: nat)
    requires i < rows && j < cols
    ensures Resized(m, rows, cols).rows == rows && Resized(m, rows, cols).cols == cols
    ensures i < m.rows && j < m.cols ==> Resized(m, rows, cols).entries[i][j] == m.entries[i][j]
    ensures i >= m.rows || j >= m.cols ==> Resized(m, rows, cols).entries[i][j] == 0.0
  {
  }

  /** Resizing to the same shape changes nothing. */
  lemma ResizeToSameShape(m: Grid)
    ensures Resized(m, m.rows, m.cols) == m
  {
    var r := Resized(m, m.rows, m.cols);
    forall i | 0 <= i < m.rows
      ensures r.entries[i] == m.entries[i]
    {
    }
  }

  /** Growing a matrix and shrinking it back restores it: growing loses no
   *  entry. */
  lemma GrowThenShrink(m: Grid, rows: nat, cols: nat)
    requires rows >= m.rows && cols >= m.cols
    ensures Resized(Resized(m, rows, cols), m.rows, m.cols) == m
  {
    var g := Resized(m, rows, cols);
    var r := Resized(g, m.rows, m.cols);
    forall i | 0 <= i < m.rows
      ensures r.entries[i] == m.entries[i]
    {
      forall j | 0 <= j < m.cols
        ensures r.entries[i][j] == m.entries[i][j]
      {
        ResizedKeepsBlock(m, rows, cols, i, j);
      }
    }
  }

  /** Shrinking and growing back keeps exactly the top-left block of the
   *  smaller shape and zeroes the rest. */
  lemma ShrinkThenGrow(m: Grid, rows: nat, cols: nat, i: nat, j: nat)
    requires rows <= m.rows && cols <= m.cols && i < m.rows && j < m.cols
    ensures Resized(Resized(m, rows, cols), m.rows, m.cols).entries[i][j] ==
            if i < rows && j < cols then m.entries[i][j] else 0.0
  {
    ResizedKeepsBlock(Resized(m, rows, cols), m.rows, m.cols, i, j);
    if i < rows && j < cols {
      ResizedKeepsBlock(m, rows, cols, i, j);
    }
  }

  /** Transposing swaps the shape and the indices, and twice is the
   *  identity. */
  lemma TransposeSwaps(m: Grid)
    ensures Transpose(m).rows == m.cols && Transpose(m).cols == m.rows
    ensures forall i, j :: 0 <= i < m.rows && 0 <= j < m.cols ==> Transpose(m).entries[j][i] == m.entries[i][j]
    ensures Transpose(Transpose(m)) == m
  {
    var t := Transpose(Transpose(m));
    forall i | 0 <= i < m.rows
      ensures t.entries[i] == m.entries[i]
    {
    }
  }

  /** `create_matrix` succeeds exactly for a fresh name and non-negative
   *  dimensions, storing a zero matrix under that name only. */
  lemma CreateChecks(reg: Registry, name: string, dims: (int, int))
    ensures var (r, reg') := CreateStep(reg, name, dims);
            (r.Ok? <==> name !in reg && dims.0 >= 0 && dims.1 >= 0) &&
            (r.Err? ==> r.error == ValueError && reg' == reg) &&
            (r.Ok? ==> reg'.Keys == reg.Keys + {name} && reg'[name] == r.value &&
                       r.value.rows == dims.0 && r.value.cols == dims.1 &&
                       (forall i, j :: 0 <= i < dims.0 && 0 <= j < dims.1 ==> r.value.entries[i][j] == 0.0) &&
                       forall k :: k in reg ==> reg'[k] == reg[k])
  {
    ZerosAreZero(dims);
  }

  /** `update_matrix` succeeds exactly for an existing name and
   *  non-negative dimensions, and replaces only that matrix, by its resize. */
  lemma UpdateChecks(reg: Registry, name: string, dims: (int, int))
    ensures var (r, reg') := UpdateStep(reg, name, dims);
            (r.Ok? <==> name in reg && dims.0 >= 0 && dims.1 >= 0) &&
            (r.Err? ==> r.error == ValueError && reg' == reg) &&
            (r.Ok? ==> reg'.Keys == reg.Keys && reg'[name] == r.value &&
                       r.value.rows == dims.0 && r.value.cols == dims.1 &&
                       (forall i, j :: 0 <= i < dims.0 && 0 <= j < dims.1 ==>
                          r.value.entries[i][j] ==
                          if i < reg[name].rows && j < reg[name].cols then reg[name].entries[i][j] else 0.0) &&
                       forall k :: k in reg && k != name ==> reg'[k] == reg[k])
  {
  }

  /** `delete_matrix` requires the matrix to exist and removes exactly it. */
  lemma DeleteRemoves(reg: Registry, name: string)
    ensures var (o, reg') := DeleteStep(reg, name);
            (o.Pass? <==> name in reg) && (o.Fail? ==> o.error == ValueError && reg' == reg) &&
            (o.Pass? ==> reg'.Keys == reg.Keys - {name} && GetStep(reg', name) == Err(ValueError) &&
                         forall k :: k in reg' ==> reg'[k] == reg[k])
  {
  }

  /** "transpose" is the only supported operation. */
  lemma OnlyTranspose(reg: Registry, name: string, operation: string)
    ensures OperationStep(reg, name, operation).Ok? <==> name in reg && operation == "transpose"
    ensures OperationStep(reg, name, operation).Err? ==> OperationStep(reg, name, operation).error == ValueError
    ensures OperationStep(reg, name, operation).Ok? ==>
              Transpose(OperationStep(reg, name, operation).value) == reg[name]
  {
    if name in reg {
      TransposeSwaps(reg[name]);
    }
  }

  class MatrixInterface {
    var matrices: Registry

    constructor ()
      ensures matrices == map[]
    {
      matrices := map[];
    }

    method CreateMatrix(name: string, dims: (int, int)) returns (r: Result<Grid>)
      modifies this
      ensures (r, matrices) == CreateStep(old(matrices), name, dims)
    {
      if name in matrices {
        return Err(ValueError);
      }
      var z := Zeros(dims);
      if z.Err? {
        return Err(z.error);
      }
      matrices := matrices[name := z.value];
      return Ok(z.value);
    }

    function GetMatrix(name: string): (r: Result<Grid>)
      reads this
      ensures r.Ok? <==> name in matrices
      ensures r.Ok? ==> r.value == matrices[name]
    {
      GetStep(matrices, name)
    }

    method UpdateMatrix(name: string, dims: (int, int)) returns (r: Result<Grid>)
      modifies this
      ensures (r, matrices) == UpdateStep(old(matrices), name, dims)
    {
      if name !in matrices {
        return Err(ValueError);
      }
      if dims.0 < 0 || dims.1 < 0 {
        return Err(ValueError);
      }
      var updated := Resized(matrices[name], dims.0, dims.1);
      matrices := matrices[name := updated];
      return Ok(updated);
    }

    method DeleteMatrix(name: string) returns (o: Outcome)
      modifies this
      ensures (o, matrices) == DeleteStep(old(matrices), name)
    {
      if name !in matrices {
        return Fail(ValueError);
      }
      matrices := matrices - {name};
      return Pass;
    }

    function PerformOperation(name: string, operation: string): (r: Result<Grid>)
      reads this
      ensures r.Ok? <==> name in matrices && operation == "transpose"
      ensures r.Ok? ==> r.value.rows == matrices[name].cols && r.value.cols == matrices[name].rows
    {
      OperationStep(matrices, name, operation)
    }
  }
}
